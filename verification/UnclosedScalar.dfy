/** When a double-quoted scalar is accepted: the scanner reports the end of the
    input only in the middle of a line, so some scalars that are never closed
    are accepted. */
module UnclosedScalar {
  import opened DoubleQuoted
  import opened Wrappers
  import opened Utf8

  /** What is met first in the text behind an opening quote. */
  datatype Stop = Closing | Wrong(error: Error) | Nothing

  /** Walks over the text: breaks with the blanks after them, escapes and other bytes. */
  function FirstStop(s: seq<byte>, column: nat): Stop
    decreases |s|
  {
    if s == [] then Nothing
    else if AtEnd(s) then Closing
    else if Break(s) > 0 then FirstStop(NextLine(s), Blanks(s[Break(s)..]))
    else if column == 0 && DocIndicator(s) then Wrong(DocInScalar)
    else if EscBreak(s) || s[0] != BACKSLASH then FirstStop(s[1..], column + 1)
    else if Escape(s).bytes.Err? then Wrong(Escape(s).bytes.error)
    else FirstStop(LeftAfter(s, Escape(s).used), column + Escape(s).used)
  }

  /** What follows a line break and blanks. */
  function NextLine(s: seq<byte>): (r: seq<byte>)
    requires Break(s) > 0
    ensures |r| < |s|
  {
    var line := s[Break(s)..];
    line[Blanks(line)..]
  }

  /** The last line break is followed by nothing but blanks. */
  ghost predicate EndsInBlankLine(s: seq<byte>) {
    exists i :: 0 <= i < |s| && s[i] == NEWLINE && AllBlank(s[i + 1..])
  }

  ghost predicate AllBlank(s: seq<byte>) {
    forall j :: 0 <= j < |s| ==> s[j] == SPACE || s[j] == TAB
  }

  // ---------- Bytes that are not breaks ----------

  lemma {:induction false} PassByte(s: seq<byte>)
    requires s != [] && s[0] != NEWLINE
    ensures EndsInBlankLine(s) <==> EndsInBlankLine(s[1..])
  {
    hide AllBlank;
    if EndsInBlankLine(s) {
      var i :| 0 <= i < |s| && s[i] == NEWLINE && AllBlank(s[i + 1..]);
      assert s[1..][i - 1] == NEWLINE && s[1..][i..] == s[i + 1..];
    }
    if EndsInBlankLine(s[1..]) {
      var i :| 0 <= i < |s[1..]| && s[1..][i] == NEWLINE && AllBlank(s[1..][i + 1..]);
      assert s[i + 1] == NEWLINE && s[1..][i + 1..] == s[i + 2..];
    }
  }

  lemma {:induction false} PassBytes(s: seq<byte>, n: nat)
    requires n <= |s| && forall i :: 0 <= i < n ==> s[i] != NEWLINE
    ensures EndsInBlankLine(s) <==> EndsInBlankLine(s[n..])
  {
    if n == 0 { assert s[0..] == s; } else {
      PassBytes(s, n - 1);
      PassByte(s[n - 1..]);
      assert s[n - 1..][1..] == s[n..];
    }
  }

  /** An escape that is accepted lies within the input and holds no line break. */
  lemma {:induction false} EscapeInside(s: seq<byte>, column: nat)
    requires s != [] && s[0] == BACKSLASH && Escape(s).bytes.Ok?
    ensures var n := Escape(s).used; n <= |s| && LeftAfter(s, n) == s[n..] && Column(column, NextBytes(s, n)) == column + n
    ensures forall i :: 0 <= i < Escape(s).used ==> s[i] != NEWLINE
  {
    var n := Escape(s).used;
    assert |s| >= 2 && s[1] != NEWLINE && Peek(LeftAfter(s, 1)) == s[1];
    if Simple(s[1]).None? {
      HexInside(s[2..], CodeLength(s[1]));
    }
    GotInside(s, n);
    NoBreakColumn(column, s[..n]);
  }

  lemma {:induction false} HexInside(s: seq<byte>, n: nat)
    requires ParseHex(NextBytes(s, n)).Some?
    ensures n <= |s| && forall i :: 0 <= i < n ==> s[i] != NEWLINE
  {
    AllDigits(NextBytes(s, n));
    GotBytes(s, n);
    forall i | 0 <= i < n ensures i < |s| && s[i] != NEWLINE { assert DigitValue(NextBytes(s, n)[i]).Some?; }
  }

  lemma {:induction false} AllDigits(s: seq<byte>)
    requires ParseHex(s).Some?
    ensures forall i :: 0 <= i < |s| ==> DigitValue(s[i]).Some?
  {
    if s != [] { AllDigits(s[..|s| - 1]); }
  }

  lemma {:induction false} GotBytes(s: seq<byte>, n: nat)
    ensures forall i :: 0 <= i < n ==> NextBytes(s, n)[i] == if i < |s| then s[i] else EOF
  {
    if n > 0 {
      GotBytes(LeftAfter(s, 1), n - 1);
      assert NextBytes(s, n) == [Peek(s)] + NextBytes(LeftAfter(s, 1), n - 1);
    }
  }

  lemma {:induction false} GotInside(s: seq<byte>, n: nat)
    requires n <= |s|
    ensures NextBytes(s, n) == s[..n]
  {
    GotBytes(s, n);
  }

  lemma {:induction false} NoBreakColumn(column: nat, s: seq<byte>)
    requires forall i :: 0 <= i < |s| ==> s[i] != NEWLINE
    ensures Column(column, s) == column + |s|
  {
    if s != [] { NoBreakColumn(column, s[..|s| - 1]); }
  }

  // ---------- Lines ----------

  /** One line of the scanner stops where the walk over the text does. */
  ghost predicate Follows(s: seq<byte>, column: nat, r: Result<Scan>) {
    if r.Err? then FirstStop(s, column) == Wrong(r.error)
    else
      && FirstStop(s, column) == FirstStop(r.value.rest, r.value.column)
      && (EndsInBlankLine(s) <==> EndsInBlankLine(r.value.rest))
  }

  lemma {:induction false} LineFollows(t: Scan)
    requires t.lastNonWhitespace <= |t.scalar|
    ensures Follows(t.rest, t.column, ScanLine(t))
    decreases |t.rest|
  {
    hide Escape, DocIndicator, EndsInBlankLine, Column, NextBytes, LeftAfter;
    if t.rest == [] || AtEnd(t.rest) || Break(t.rest) > 0 || (t.column == 0 && DocIndicator(t.rest)) {
    } else if EscBreak(t.rest) {
      PassByte(t.rest);
    } else if t.rest[0] == BACKSLASH {
      if Escape(t.rest).bytes.Ok? { EscapeFollows(t); }
    } else {
      PassByte(t.rest);
      LineFollows(AfterByte(t));
    }
  }

  lemma {:induction false} EscapeFollows(t: Scan)
    requires t.lastNonWhitespace <= |t.scalar| && t.rest != [] && t.rest[0] == BACKSLASH && !EscBreak(t.rest)
    requires !(t.column == 0 && DocIndicator(t.rest)) && Escape(t.rest).bytes.Ok?
    ensures Follows(t.rest, t.column, ScanLine(t))
    decreases |t.rest|, 0
  {
    hide Escape, DocIndicator, EndsInBlankLine, Column, NextBytes, LeftAfter;
    EscapeInside(t.rest, t.column);
    PassBytes(t.rest, Escape(t.rest).used);
    EscapeEats(t.rest);
    LineFollows(AfterEscape(t, Escape(t.rest).bytes.value, Escape(t.rest).used));
  }

  lemma {:induction false} EscapeEats(s: seq<byte>)
    ensures Escape(s).used >= 2
  {
  }

  /** A text that starts with a line break ends in a blank line if the text behind it does or is empty. */
  lemma {:induction false} PassBreak(s: seq<byte>)
    requires Break(s) > 0
    ensures EndsInBlankLine(s) <==> NextLine(s) == [] || EndsInBlankLine(NextLine(s))
  {
    var n := Break(s);
    var line := s[n..];
    BreakShape(s);
    PassBytes(s, n - 1);
    var b := s[n - 1..];
    assert b[1..] == line && NextLine(s) == line[Blanks(line)..];
    hide Blanks, Break, EndsInBlankLine, AllBlank, NextLine;
    BlankLine(b);
  }

  lemma {:induction false} BreakShape(s: seq<byte>)
    requires Break(s) > 0
    ensures Break(s) <= |s| && s[Break(s) - 1] == NEWLINE && forall i :: 0 <= i < Break(s) - 1 ==> s[i] != NEWLINE
  {
  }

  lemma {:induction false} BlankLine(b: seq<byte>)
    requires b != [] && b[0] == NEWLINE
    ensures var rest := b[1..][Blanks(b[1..])..];
            EndsInBlankLine(b) <==> rest == [] || EndsInBlankLine(rest)
  {
    var line := b[1..];
    BlanksAre(line);
    PassBytes(line, Blanks(line));
    if line[Blanks(line)..] == [] { AllBlankAfter(b); }
    hide Blanks, EndsInBlankLine, AllBlank;
    if EndsInBlankLine(b) { FirstOrLater(b); }
    if EndsInBlankLine(line) { Longer(b); }
  }

  lemma {:induction false} AllBlankAfter(b: seq<byte>)
    requires b != [] && b[0] == NEWLINE && b[1..][Blanks(b[1..])..] == []
    ensures EndsInBlankLine(b)
  {
    var line := b[1..];
    BlanksAre(line);
    assert line[..Blanks(line)] == line;
    hide Blanks, AllBlank;
    assert b[0] == NEWLINE && AllBlank(b[0 + 1..]);
  }

  lemma {:induction false} Longer(b: seq<byte>)
    requires b != [] && EndsInBlankLine(b[1..])
    ensures EndsInBlankLine(b)
  {
    hide AllBlank;
    var i :| 0 <= i < |b[1..]| && b[1..][i] == NEWLINE && AllBlank(b[1..][i + 1..]);
    assert b[i + 1] == NEWLINE && b[1..][i + 1..] == b[i + 2..];
  }

  lemma {:induction false} FirstOrLater(b: seq<byte>)
    requires b != [] && EndsInBlankLine(b)
    ensures EndsInBlankLine(b[1..]) || AllBlank(b[1..])
  {
    hide AllBlank;
    var i :| 0 <= i < |b| && b[i] == NEWLINE && AllBlank(b[i + 1..]);
    if i > 0 { assert b[1..][i - 1] == NEWLINE && b[1..][i..] == b[i + 1..]; }
  }

  lemma {:induction false} BlanksAre(s: seq<byte>)
    ensures AllBlank(s[..Blanks(s)]) && !Blank(s[Blanks(s)..])
    ensures forall i :: 0 <= i < Blanks(s) ==> s[i] != NEWLINE
    ensures AllBlank(s) ==> s[Blanks(s)..] == []
  {
    if Blank(s) {
      BlanksAre(s[1..]);
      assert s[..Blanks(s)] == [s[0]] + s[1..][..Blanks(s[1..])];
      assert s[1..][Blanks(s[1..])..] == s[Blanks(s)..];
    }
  }

  // ---------- Scalars ----------

  /** Whether the scanner accepts what is left of a scalar. */
  ghost predicate Verdict(s: seq<byte>, column: nat, r: Result<Scan>) {
    match FirstStop(s, column)
    case Closing => r.Ok?
    case Wrong(e) => r == Err(e)
    case Nothing => if s == [] || EndsInBlankLine(s) then r.Ok? && r.value.rest == [] else r == Err(EofInScalar)
  }

  lemma {:induction false} ScalarFollows(t: Scan)
    requires t.lastNonWhitespace <= |t.scalar|
    ensures Verdict(t.rest, t.column, ScanLines(t))
    decreases |t.rest|
  {
    hide EndsInBlankLine, DocIndicator, Escape, ScanLine;
    if t.rest != [] {
      var from := t.(lastNonWhitespace := |t.scalar|, escapedNewline := false);
      LineFollows(from);
      if ScanLine(from).Ok? {
        var u := ScanLine(from).value;
        if u.rest == [] {
          NoBlankLine();
        } else if !AtEnd(u.rest) {
          PassBreak(u.rest);
          assert Fold(u).rest == NextLine(u.rest) && Fold(u).column == Blanks(u.rest[Break(u.rest)..]);
          ScalarFollows(Fold(u));
        }
      }
    }
  }

  lemma {:induction false} NoBlankLine()
    ensures !EndsInBlankLine([])
  {
  }

  /** What the scanner makes of any text behind an opening quote: it is accepted
      if its quote is closed, refused for a bad escape or a document indicator,
      and otherwise, though never closed, accepted exactly if nothing follows the
      quote or only blanks follow the last line break. */
  lemma {:induction false} AcceptedIff(s: seq<byte>, column: nat)
    requires s != []
    ensures match FirstStop(s[1..], column + 1)
            case Closing => ScanQuoted(s, column).Ok?
            case Wrong(e) => ScanQuoted(s, column) == Err(e)
            case Nothing =>
              && (ScanQuoted(s, column).Ok? <==> s[1..] == [] || EndsInBlankLine(s[1..]))
              && (ScanQuoted(s, column).Err? ==> ScanQuoted(s, column).error == EofInScalar)
  {
    ScalarFollows(Scan(s[1..], column + 1, [], 0, None, false, false));
    hide ScanLines, FirstStop, EndsInBlankLine;
  }

  /** A quote at the very end, or one with a line behind it, is accepted unclosed; one in a line is not. */
  lemma {:induction false} UnclosedAccepted(column: nat)
    ensures ScanQuoted([QUOTE], column).Ok? && ScanQuoted([QUOTE, 0x61, NEWLINE], column).Ok?
    ensures ScanQuoted([QUOTE, 0x61], column) == Err(EofInScalar)
  {
    var a, line := [0x61], [0x61, NEWLINE];
    assert [QUOTE][1..] == [] && [QUOTE, 0x61][1..] == a && [QUOTE, 0x61, NEWLINE][1..] == line;
    NothingMet(column + 1);
    assert line[1] == NEWLINE && AllBlank(line[2..]);
    assert !EndsInBlankLine(a);
    hide ScanQuoted, FirstStop, EndsInBlankLine;
    AcceptedIff([QUOTE], column);
    AcceptedIff([QUOTE, 0x61], column);
    AcceptedIff([QUOTE, 0x61, NEWLINE], column);
  }

  lemma {:induction false} NothingMet(column: nat)
    requires column > 0
    ensures FirstStop([], column).Nothing? && FirstStop([0x61], column).Nothing?
            && FirstStop([0x61, NEWLINE], column).Nothing?
  {
    assert [0x61][1..] == [] && [0x61, NEWLINE][1..] == [NEWLINE] && NextLine([NEWLINE]) == [];
    assert FirstStop([NEWLINE], column + 1) == FirstStop([], 0);
  }
}
