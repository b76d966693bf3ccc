/**
 * Printing TB_LOG records, wrapping each at any of its field delimiters, then
 * assembling, joining and splitting gives the same fields back, record by record.
 */
module RoundTrip {
  import opened Prelude
  import opened Text
  import opened FieldSplit
  import opened Recognisers
  import opened Assembler
  import opened AssemblerLaws

  // ---- the reading side (parsers.py, start of parse_tb_log) ----------------

  /** The trimmed lines in one text, a space between two of them. */
  function JoinStripped(lines: seq<string>): string {
    Join(StripAll(lines), " ")
  }

  /** Drops a leading record marker together with the spaces around it. */
  function StripPrefix(text: string): string {
    var t := LStrip(text);
    if "TB_LOG:" <= t then LStrip(t[7..]) else text
  }

  function FieldsOf(rawText: string): seq<string> {
    SplitFields(StripPrefix(JoinStripped(SplitLines(rawText))))
  }

  // ---- the printing side ---------------------------------------------------

  /** `fields` joined by " - ", where a true in `wraps` ends the line behind that dash. */
  function Wrapped(fields: seq<string>, wraps: seq<bool>): (lines: seq<string>)
    requires |fields| > 0 && |wraps| == |fields| - 1
    ensures |lines| > 0
  {
    if |fields| == 1 then [fields[0]]
    else
      var rest := Wrapped(fields[1..], wraps[1..]);
      if wraps[0] then [fields[0] + " -"] + rest
      else [fields[0] + " - " + rest[0]] + rest[1..]
  }

  /** The physical lines of one record, without their newlines. */
  function Printed(fields: seq<string>, wraps: seq<bool>): (lines: seq<string>)
    requires |fields| > 0 && |wraps| == |fields| - 1
    ensures |lines| > 0
  {
    var lines := Wrapped(fields, wraps);
    ["TB_LOG: " + lines[0]] + lines[1..]
  }

  /** A field as the format writes it; an unquoted final dash would look like a wrap. */
  predicate FieldOk(f: string) {
    Trimmed(f) && NoLineBreak(f) && Balanced(f) && CutFree(f + " ", false)
  }

  predicate WellFormed(fields: seq<string>) {
    && |fields| > 0
    && (forall i :: 0 <= i < |fields| ==> FieldOk(fields[i]))
    && fields[|fields| - 1] != ""
  }

  /** Enough to put the fields on lines: no field has a line break, and the last one ends the last line. */
  predicate Printable(fields: seq<string>) {
    && |fields| > 0
    && (forall i :: 0 <= i < |fields| ==> NoLineBreak(fields[i]))
    && Trimmed(fields[|fields| - 1]) && fields[|fields| - 1] != ""
  }

  /** The last field stands alone on its line, where it reads as a page header. */
  predicate HeaderAlone(fields: seq<string>, wraps: seq<bool>)
    requires |fields| > 0 && |wraps| == |fields| - 1
  {
    |fields| > 1 && wraps[|wraps| - 1] && IsPageHeader(fields[|fields| - 1])
  }

  // ---- shape of the printed lines ------------------------------------------

  /** A line that is not the last one ends in a dash; every line ends without space. */
  predicate LineOk(line: string, last: bool) {
    && line != ""
    && NoLineBreak(line)
    && !IsSpace(line[|line| - 1])
    && (last || line[|line| - 1] == '-')
  }

  predicate LinesOk(lines: seq<string>) {
    |lines| > 0 && forall i :: 0 <= i < |lines| ==> LineOk(lines[i], i == |lines| - 1)
  }

  lemma DashMakesNoHeader(a: string, b: string)
    ensures !IsPageHeader(a + " - " + b)
  {
    var s := a + " - " + b;
    assert s[|a| + 1] == '-';
    if IsPageHeader(s) {
      PageHeaderHasNoDash(s);
    }
  }

  lemma TailPrintable(fields: seq<string>)
    requires Printable(fields) && |fields| > 1
    ensures Printable(fields[1..])
  {
    assert fields[1..][|fields[1..]| - 1] == fields[|fields| - 1];
    forall i | 0 <= i < |fields[1..]|
      ensures NoLineBreak(fields[1..][i])
    {
      assert fields[1..][i] == fields[i + 1];
    }
  }

  /** The last line of a printed record is a page header exactly when the last field makes it one. */
  lemma {:induction false} WrappedLast(fields: seq<string>, wraps: seq<bool>)
    requires |fields| > 1 && |wraps| == |fields| - 1
    ensures var lines := Wrapped(fields, wraps);
      && (IsPageHeader(lines[|lines| - 1]) <==> HeaderAlone(fields, wraps))
      && (HeaderAlone(fields, wraps) ==> |lines| > 1)
  {
    var rest, lines := Wrapped(fields[1..], wraps[1..]), Wrapped(fields, wraps);
    DashMakesNoHeader(fields[0], rest[0]);
    if |fields| > 2 {
      WrappedLast(fields[1..], wraps[1..]);
      assert HeaderAlone(fields, wraps) <==> HeaderAlone(fields[1..], wraps[1..]);
    }
  }

  lemma PrintedLast(fields: seq<string>, wraps: seq<bool>)
    requires |fields| > 0 && |wraps| == |fields| - 1
    ensures var lines := Printed(fields, wraps);
      && (IsPageHeader(lines[|lines| - 1]) <==> HeaderAlone(fields, wraps))
      && (HeaderAlone(fields, wraps) ==> |lines| > 1)
  {
    var lines := Printed(fields, wraps);
    TbLogIsNoHeader(lines[0]);
    if |fields| > 1 {
      WrappedLast(fields, wraps);
    }
  }

  lemma {:induction false} WrappedLines(fields: seq<string>, wraps: seq<bool>)
    requires Printable(fields) && |wraps| == |fields| - 1
    ensures LinesOk(Wrapped(fields, wraps))
  {
    assert NoLineBreak(fields[0]);
    if |fields| > 1 {
      TailPrintable(fields);
      WrappedLines(fields[1..], wraps[1..]);
      var rest := Wrapped(fields[1..], wraps[1..]);
      var lines := Wrapped(fields, wraps);
      if wraps[0] {
        forall i | 0 <= i < |lines|
          ensures LineOk(lines[i], i == |lines| - 1)
        {
          if i > 0 {
            assert lines[i] == rest[i - 1] && LineOk(rest[i - 1], i - 1 == |rest| - 1);
          }
        }
      } else {
        forall i | 0 <= i < |lines|
          ensures LineOk(lines[i], i == |lines| - 1)
        {
          assert LineOk(rest[i], i == |rest| - 1);
          if i == 0 {
            assert lines[0][|lines[0]| - 1] == rest[0][|rest[0]| - 1];
          }
        }
      }
    }
  }

  lemma {:induction false} WrappedQuotes(fields: seq<string>, wraps: seq<bool>)
    requires WellFormed(fields) && |wraps| == |fields| - 1
    ensures Balanced(Join(Wrapped(fields, wraps), "\n"))
  {
    assert FieldOk(fields[0]);
    if |fields| > 1 {
      TailWellFormed(fields);
      WrappedQuotes(fields[1..], wraps[1..]);
      var rest := Wrapped(fields[1..], wraps[1..]);
      var f := fields[0];
      if wraps[0] {
        JoinCons(f + " -", rest, "\n");
        Associate(f, " -", "\n", Join(rest, "\n"));
        QuotesBetween(f, " -" + "\n", Join(rest, "\n"));
      } else {
        JoinFront(f + " - ", rest, "\n");
        QuotesBetween(f, " - ", Join(rest, "\n"));
      }
    }
  }

  lemma QuotesBetween(a: string, sep: string, b: string)
    requires '"' !in sep && Balanced(a) && Balanced(b)
    ensures Balanced(a + sep + b) && Balanced(a + (sep + b))
  {
    QuotesAppend(a + sep, b);
    QuotesAppend(a, sep);
    NoQuotes(sep);
    assert a + (sep + b) == a + sep + b;
  }

  /** Text put before the first line is put before the joined text. */
  lemma JoinFront(front: string, lines: seq<string>, sep: string)
    requires |lines| > 0
    ensures Join([front + lines[0]] + lines[1..], sep) == front + Join(lines, sep)
  {
    if |lines| > 1 {
      var rest := lines[1..];
      assert lines == [lines[0]] + rest;
      JoinCons(lines[0], rest, sep);
      JoinCons(front + lines[0], rest, sep);
      Associate(front, lines[0], sep, Join(rest, sep));
    } else {
      assert lines == [lines[0]];
      assert [front + lines[0]] + lines[1..] == [front + lines[0]];
    }
  }

  // ---- reading the printed lines back --------------------------------------

  lemma StripLine(line: string, last: bool)
    requires LineOk(line, last)
    ensures RStrip(line) == line
    ensures Strip(line) == LStrip(line)
    ensures !AllSpace(line)
  {
    var pad := LStripSuffix(line);
    assert LStrip(line) == "" ==> line == pad;
    assert LStrip(line) != "" ==> LStrip(line)[|LStrip(line)| - 1] == line[|line| - 1];
  }

  /** The lines as one text: every line but the first loses its leading spaces. */
  function Flow(lines: seq<string>): string
    requires |lines| > 0
  {
    if |lines| == 1 then lines[0] else lines[0] + " " + LStrip(Flow(lines[1..]))
  }

  lemma FlowCons(first: string, rest: seq<string>)
    requires |rest| > 0
    ensures Flow([first] + rest) == first + " " + LStrip(Flow(rest))
  {
    assert ([first] + rest)[1..] == rest;
  }

  lemma FlowFront(front: string, lines: seq<string>)
    requires |lines| > 0
    ensures Flow([front + lines[0]] + lines[1..]) == front + Flow(lines)
  {
    if |lines| > 1 {
      FlowFrontMany(front, lines[0], lines[1..]);
      assert lines == [lines[0]] + lines[1..];
    } else {
      assert [front + lines[0]] + lines[1..] == [front + lines[0]];
    }
  }

  lemma FlowFrontMany(front: string, first: string, rest: seq<string>)
    requires |rest| > 0
    ensures Flow([front + first] + rest) == front + Flow([first] + rest)
  {
    FlowCons(first, rest);
    FlowCons(front + first, rest);
    Associate(front, first, " ", LStrip(Flow(rest)));
  }

  lemma {:induction false} JoinStrippedFlow(lines: seq<string>)
    requires LinesOk(lines)
    ensures JoinStripped(lines) == LStrip(Flow(lines))
  {
    StripLine(lines[0], |lines| == 1);
    if |lines| == 1 {
      assert StripAll(lines) == [Strip(lines[0])];
    } else {
      var rest := lines[1..];
      assert forall i :: 0 <= i < |rest| ==> rest[i] == lines[i + 1];
      forall i | 0 <= i < |rest|
        ensures LineOk(rest[i], i == |rest| - 1)
      {
        assert LineOk(lines[i + 1], i + 1 == |lines| - 1);
      }
      JoinStrippedFlow(rest);
      assert lines == [lines[0]] + rest;
      StripAllCons(lines[0], rest);
      JoinCons(Strip(lines[0]), StripAll(rest), " ");
      LStripAppend(lines[0], " " + LStrip(Flow(rest)));
      assert lines[0] + (" " + LStrip(Flow(rest))) == Flow(lines);
    }
  }

  lemma TailWellFormed(fields: seq<string>)
    requires WellFormed(fields) && |fields| > 1
    ensures WellFormed(fields[1..]) && FieldOk(fields[0])
  {
    assert fields[1..][|fields[1..]| - 1] == fields[|fields| - 1];
  }

  lemma SingleSplits(f: string)
    requires FieldOk(f)
    ensures SplitFields(f) == [f]
  {
    assert Join([f], " - ") == f;
    CutFreeFront(f, " ", false);
    SplitInvertsJoin([f]);
  }

  lemma WrapText(f: string, flow: string)
    requires FieldOk(f)
    ensures SplitFields(f + " -" + " " + LStrip(flow)) == [f] + SplitFields(flow)
  {
    var rest := LStrip(flow);
    assert f + " -" + " " + rest == f + " " + "- " + rest;
    PaddedHead(f, rest);
    var pad := LStripSuffix(flow);
    SplitIgnoresLeadingSpace(pad, rest);
  }

  lemma InlineText(f: string, flow: string)
    requires FieldOk(f)
    ensures SplitFields(f + " - " + flow) == [f] + SplitFields(flow)
  {
    assert f + " - " + flow == f + " " + "- " + flow;
    PaddedHead(f, flow);
  }

  lemma WrapSplits(f: string, rest: seq<string>)
    requires FieldOk(f) && |rest| > 0
    ensures SplitFields(Flow([f + " -"] + rest)) == [f] + SplitFields(Flow(rest))
  {
    FlowCons(f + " -", rest);
    WrapText(f, Flow(rest));
  }

  lemma InlineSplits(f: string, rest: seq<string>)
    requires FieldOk(f) && |rest| > 0
    ensures SplitFields(Flow([f + " - " + rest[0]] + rest[1..])) == [f] + SplitFields(Flow(rest))
  {
    FlowFront(f + " - ", rest);
    InlineText(f, Flow(rest));
  }

  /** However the fields are wrapped, splitting the flowing text gives them back. */
  lemma {:induction false} FlowSplits(fields: seq<string>, wraps: seq<bool>)
    requires WellFormed(fields) && |wraps| == |fields| - 1
    ensures SplitFields(Flow(Wrapped(fields, wraps))) == fields
  {
    if |fields| == 1 {
      SingleSplits(fields[0]);
    } else {
      TailWellFormed(fields);
      FlowSplits(fields[1..], wraps[1..]);
      var rest := Wrapped(fields[1..], wraps[1..]);
      WrapSplits(fields[0], rest);
      InlineSplits(fields[0], rest);
      assert fields == [fields[0]] + fields[1..];
    }
  }

  lemma PaddedHead(f: string, rest: string)
    requires FieldOk(f)
    ensures SplitFields(f + " " + "- " + rest) == [f] + SplitFields(rest)
  {
    QuotesAppend(f, " ");
    SplitHead(f + " ", rest);
    assert "" + f + " " == f + " ";
    StripPadded("", f, " ");
  }

  lemma PrintedLines(fields: seq<string>, wraps: seq<bool>)
    requires WellFormed(fields) && |wraps| == |fields| - 1
    ensures LinesOk(Printed(fields, wraps))
    ensures "TB_LOG:" <= Printed(fields, wraps)[0]
    ensures Balanced(Join(Printed(fields, wraps), "\n"))
  {
    PrintedLinesOk(fields, wraps);
    WrappedQuotes(fields, wraps);
    var w := Wrapped(fields, wraps);
    JoinFront("TB_LOG: ", w, "\n");
    QuotesAppend("TB_LOG: ", Join(w, "\n"));
    assert Quotes("TB_LOG: ") == 0 by {
      assert "TB_LOG: " == "TB_L" + "OG: ";
      QuotesAppend("TB_L", "OG: ");
    }
  }

  lemma PrintedLinesOk(fields: seq<string>, wraps: seq<bool>)
    requires Printable(fields) && |wraps| == |fields| - 1
    ensures LinesOk(Printed(fields, wraps))
    ensures "TB_LOG:" <= Printed(fields, wraps)[0]
  {
    WrappedLines(fields, wraps);
    var w := Wrapped(fields, wraps);
    var lines := Printed(fields, wraps);
    forall i | 0 <= i < |lines|
      ensures LineOk(lines[i], i == |lines| - 1)
    {
      assert LineOk(w[i], i == |w| - 1);
      if i == 0 {
        assert lines[0] == "TB_LOG: " + w[0];
        assert lines[0][|lines[0]| - 1] == w[0][|w[0]| - 1];
      }
    }
  }

  lemma TbLogIsNoHeader(line: string)
    requires "TB_LOG:" <= line
    ensures !IsPageHeader(line)
    ensures LStrip(line) == line && line[0] == 'T'
  {
  }

  /** Reading a printed record is splitting its flowing text. */
  lemma ReadFlow(fields: seq<string>, wraps: seq<bool>)
    requires Printable(fields) && |wraps| == |fields| - 1
    ensures FieldsOf(Join(Printed(fields, wraps), "\n")) == SplitFields(Flow(Wrapped(fields, wraps)))
  {
    var lines, w := Printed(fields, wraps), Wrapped(fields, wraps);
    PrintedLinesOk(fields, wraps);
    assert LineOk(lines[|lines| - 1], true);
    SplitLinesJoin(lines);
    JoinStrippedFlow(lines);
    FlowFront("TB_LOG: ", w);
    ReadBody(Flow(w));
  }

  lemma WellFormedPrintable(fields: seq<string>)
    requires WellFormed(fields)
    ensures Printable(fields)
  {
    assert FieldOk(fields[|fields| - 1]);
  }

  /** Parsing the text of one printed record gives its fields. */
  lemma ReadPrinted(fields: seq<string>, wraps: seq<bool>)
    requires WellFormed(fields) && |wraps| == |fields| - 1
    ensures FieldsOf(Join(Printed(fields, wraps), "\n")) == fields
  {
    WellFormedPrintable(fields);
    ReadFlow(fields, wraps);
    FlowSplits(fields, wraps);
  }

  predicate AllFilled(fields: seq<string>) {
    forall i :: 0 <= i < |fields| ==> fields[i] != "" && !IsSpace(fields[i][0])
  }

  /** When no field is empty or starts with a space, wrapping does not show in the flowing text. */
  lemma {:induction false} FlowIsJoin(fields: seq<string>, wraps: seq<bool>)
    requires |fields| > 0 && |wraps| == |fields| - 1 && AllFilled(fields)
    ensures Flow(Wrapped(fields, wraps)) == Join(fields, " - ")
  {
    if |fields| > 1 {
      var f, rest := fields[0], Wrapped(fields[1..], wraps[1..]);
      assert AllFilled(fields[1..]);
      FlowIsJoin(fields[1..], wraps[1..]);
      var tail := Join(fields[1..], " - ");
      assert tail[0] == fields[1][0];
      assert LStrip(tail) == tail;
      FlowCons(f + " -", rest);
      assert f + " -" + " " + tail == f + " - " + tail;
      FlowFront(f + " - ", rest);
    }
  }

  /**
   * Filled fields come back from a printed record, however it is wrapped, exactly when
   * they are trimmed and split-safe.
   */
  lemma ReadPrintedExactly(fields: seq<string>, wraps: seq<bool>)
    requires Printable(fields) && AllFilled(fields) && |wraps| == |fields| - 1
    ensures FieldsOf(Join(Printed(fields, wraps), "\n")) == fields <==> AllTrimmed(fields) && SplitSafe(fields)
  {
    ReadFlow(fields, wraps);
    FlowIsJoin(fields, wraps);
    SplitInvertsJoin(fields);
  }

  lemma ReadBody(flow: string)
    ensures SplitFields(StripPrefix(LStrip("TB_LOG: " + flow))) == SplitFields(flow)
  {
    var text := "TB_LOG: " + flow;
    TbLogIsNoHeader(text);
    assert text[7..] == " " + flow;
    LStripPad(" ", flow);
    var pad := LStripSuffix(flow);
    SplitIgnoresLeadingSpace(pad, LStrip(flow));
  }

  // ---- assembling printed records ------------------------------------------

  /** Between records: no date pending, and an open record is a complete TB_LOG one. */
  predicate Ready(a: Asm) {
    !a.pageDatePending && (a.current.Some? ==> a.current.value.anchor == TbLog && Complete(a.current.value))
  }

  /** A TB_LOG record with this text is open behind `stack`. */
  predicate Holding(a: Asm, stack: seq<RawRecord>, text: string) {
    && !a.pageDatePending && a.stack == stack
    && a.current.Some? && a.current.value.anchor == TbLog && a.current.value.rawText == text
  }

  predicate StartLine(line: string) {
    "TB_LOG:" <= line && !IsSpace(line[|line| - 1])
  }

  predicate NextLine(line: string) {
    line != "" && !IsSpace(line[|line| - 1]) && !IsPageHeader(line)
  }

  lemma LineContent(line: string, number: int, offset: int)
    requires line != "" && !IsSpace(line[|line| - 1])
    ensures RStrip(LineAt(line + "\n", number, offset).text) == line
  {
    var raw := line + "\n";
    assert raw[..|raw| - 1] == line;
    assert ChopNewline(raw) == ChopNewline(line) == line;
  }

  lemma StartOpens(a: Asm, content: string, seen: Seen, ln: Line)
    requires Ready(a) && "TB_LOG:" <= content && seen.anchor == Some(TbLog)
    ensures Holding(ConsumeSeen(a, content, seen, ln), Flush(a).stack, content)
  {
    TbLogIsNoHeader(content);
  }

  lemma NextExtends(a: Asm, stack: seq<RawRecord>, text: string, content: string, seen: Seen, ln: Line)
    requires Holding(a, stack, text) && EndsWith(text, '-') && content != "" && seen.anchor != Some(PageHeader)
    ensures Holding(ConsumeSeen(a, content, seen, ln), stack, text + "\n" + content)
  {
    assert RStrip(text) == text;
  }

  lemma StartLineOpens(a: Asm, line: string, number: int, offset: int)
    requires Ready(a) && StartLine(line)
    ensures Holding(Consume(a, LineAt(line + "\n", number, offset)), Flush(a).stack, line)
  {
    LineContent(line, number, offset);
    TbLogIsNoHeader(line);
    StartOpens(a, line, Look(line), LineAt(line + "\n", number, offset));
  }

  lemma NextLineExtends(a: Asm, stack: seq<RawRecord>, text: string, line: string, number: int, offset: int)
    requires Holding(a, stack, text) && EndsWith(text, '-') && NextLine(line)
    ensures Holding(Consume(a, LineAt(line + "\n", number, offset)), stack, text + "\n" + line)
  {
    LineContent(line, number, offset);
    NextExtends(a, stack, text, line, Look(line), LineAt(line + "\n", number, offset));
  }

  /** What the assembler does with printed lines. */
  ghost predicate TakesPrinted(consume: (Asm, Line) -> Asm) {
    && (forall a, line, number, offset :: Ready(a) && StartLine(line) ==>
         Holding(consume(a, LineAt(line + "\n", number, offset)), Flush(a).stack, line))
    && (forall a, stack, text, line, number, offset ::
         Holding(a, stack, text) && EndsWith(text, '-') && NextLine(line) ==>
         Holding(consume(a, LineAt(line + "\n", number, offset)), stack, text + "\n" + line))
  }

  lemma ConsumerTakesPrinted()
    ensures TakesPrinted(Consumer())
  {
    hide Consume, Holding, Ready, StartLine, NextLine, LineAt, Flush;
    forall a, line, number, offset | Ready(a) && StartLine(line)
      ensures Holding(Consumer()(a, LineAt(line + "\n", number, offset)), Flush(a).stack, line)
    {
      StartLineOpens(a, line, number, offset);
    }
    forall a, stack, text, line, number, offset | Holding(a, stack, text) && EndsWith(text, '-') && NextLine(line)
      ensures Holding(Consumer()(a, LineAt(line + "\n", number, offset)), stack, text + "\n" + line)
    {
      NextLineExtends(a, stack, text, line, number, offset);
    }
  }

  /** Printed lines as a file holds them. */
  function Terminated(lines: seq<string>): seq<string> {
    if lines == [] then [] else [lines[0] + "\n"] + Terminated(lines[1..])
  }

  /** The remaining lines of a record all join it. */
  lemma {:induction false} RestJoins(
    consume: (Asm, Line) -> Asm, a: Asm, stack: seq<RawRecord>, text: string, rest: seq<string>, number: int,
      offset: int)
    requires TakesPrinted(consume) && Holding(a, stack, text)
    requires LinesOk(rest) && EndsWith(text, '-') && !IsPageHeader(rest[|rest| - 1])
    ensures Holding(Feed(consume, a, LinesOf(Terminated(rest), number, offset)), stack, text + "\n" + Join(rest, "\n"))
    decreases |rest|
  {
    hide IsPageHeader, LineAt, NoLineBreak;
    var line := rest[0];
    assert LineOk(line, |rest| == 1);
    LineIsNext(line, |rest| == 1);
    FeedFirst(consume, a, Terminated(rest), number, offset);
    var b := consume(a, LineAt(line + "\n", number + 1, offset));
    assert Holding(b, stack, text + "\n" + line);
    if |rest| > 1 {
      LinesOkTail(rest);
      RestJoins(consume, b, stack, text + "\n" + line, rest[1..], number + 1, offset + |line + "\n"|);
      assert rest == [line] + rest[1..];
      JoinCons(line, rest[1..], "\n");
      assert text + "\n" + line + "\n" + Join(rest[1..], "\n") == text + "\n" + (line + "\n" + Join(rest[1..], "\n"));
    } else {
      assert Terminated(rest)[1..] == [];
    }
  }

  lemma LineIsNext(line: string, last: bool)
    requires LineOk(line, last) && (last ==> !IsPageHeader(line))
    ensures NextLine(line)
  {
    assert line[|line| - 1] in line;
    if !last && IsPageHeader(line) {
      PageHeaderHasNoDash(line);
    }
  }

  lemma LinesOkTail(lines: seq<string>)
    requires LinesOk(lines) && |lines| > 1
    ensures LinesOk(lines[1..])
  {
    var rest := lines[1..];
    forall i | 0 <= i < |rest|
      ensures LineOk(rest[i], i == |rest| - 1)
    {
      assert LineOk(lines[i + 1], i + 1 == |lines| - 1);
    }
  }

  // ---- records end complete ------------------------------------------------

  lemma {:induction false} FinalDashIsQuoted(s: string, inQuote: bool)
    requires EndsWith(s, '-') && CutFree(s + " ", inQuote)
    ensures QuoteAfter(s, inQuote)
  {
    if |s| == 1 {
      assert (s + " ")[1] == ' ';
    } else {
      assert (s + " ")[1..] == s[1..] + " ";
      FinalDashIsQuoted(s[1..], inQuote != (s[0] == '"'));
    }
  }

  predicate EndOk(s: string) {
    s != "" && s[|s| - 1] != '-' && !IsSpace(s[|s| - 1])
  }

  lemma EndOkBehind(front: string, s: string)
    requires EndOk(s)
    ensures EndOk(front + s)
  {
    assert (front + s)[|front + s| - 1] == s[|s| - 1];
  }

  lemma LastFieldEnd(f: string)
    requires FieldOk(f) && f != ""
    ensures EndOk(f)
  {
    if EndsWith(f, '-') {
      FinalDashIsQuoted(f, false);
    }
  }

  lemma {:induction false} WrappedEnd(fields: seq<string>, wraps: seq<bool>)
    requires WellFormed(fields) && |wraps| == |fields| - 1
    ensures EndOk(Join(Wrapped(fields, wraps), "\n"))
  {
    if |fields| == 1 {
      LastFieldEnd(fields[0]);
    } else {
      TailWellFormed(fields);
      WrappedEnd(fields[1..], wraps[1..]);
      var rest := Wrapped(fields[1..], wraps[1..]);
      var f, tail := fields[0], Join(rest, "\n");
      JoinCons(f + " -", rest, "\n");
      EndOkBehind(f + " -" + "\n", tail);
      JoinFront(f + " - ", rest, "\n");
      EndOkBehind(f + " - ", tail);
    }
  }

  lemma PrintedEnd(fields: seq<string>, wraps: seq<bool>)
    requires WellFormed(fields) && |wraps| == |fields| - 1
    ensures var text := Join(Printed(fields, wraps), "\n");
      text != "" && !EndsWith(text, '-') && RStrip(text) == text
  {
    WrappedEnd(fields, wraps);
    var w := Wrapped(fields, wraps);
    JoinFront("TB_LOG: ", w, "\n");
    EndOkBehind("TB_LOG: ", Join(w, "\n"));
  }

  // ---- whole logs ----------------------------------------------------------

  datatype Entry = Entry(fields: seq<string>, wraps: seq<bool>)

  predicate ValidEntry(e: Entry) {
    WellFormed(e.fields) && |e.wraps| == |e.fields| - 1
  }

  function TextOf(e: Entry): string
    requires ValidEntry(e)
  {
    Join(Printed(e.fields, e.wraps), "\n")
  }

  predicate ValidLog(log: seq<Entry>) {
    forall i :: 0 <= i < |log| ==> ValidEntry(log[i])
  }

  /** No entry ends in a line of its own that reads as a page header. */
  predicate NoHeaderAlone(log: seq<Entry>)
    requires ValidLog(log)
  {
    forall i :: 0 <= i < |log| ==> !HeaderAlone(log[i].fields, log[i].wraps)
  }

  /** The file that printing the log gives. */
  function PrintLog(log: seq<Entry>): seq<string>
    requires ValidLog(log)
  {
    if log == [] then [] else Terminated(Printed(log[0].fields, log[0].wraps)) + PrintLog(log[1..])
  }

  /** One entry becomes one open, complete record behind everything before it. */
  lemma EntryJoins(consume: (Asm, Line) -> Asm, a: Asm, e: Entry, number: int, offset: int)
    requires TakesPrinted(consume) && Ready(a) && ValidEntry(e) && !HeaderAlone(e.fields, e.wraps)
    ensures var b := Feed(consume, a, LinesOf(Terminated(Printed(e.fields, e.wraps)), number, offset));
      Holding(b, Flush(a).stack, TextOf(e)) && Ready(b)
  {
    var lines := Printed(e.fields, e.wraps);
    PrintedLines(e.fields, e.wraps);
    PrintedEnd(e.fields, e.wraps);
    PrintedLast(e.fields, e.wraps);
    var first := lines[0];
    assert LineOk(first, |lines| == 1);
    assert StartLine(first);
    FeedFirst(consume, a, Terminated(lines), number, offset);
    var opened' := consume(a, LineAt(first + "\n", number + 1, offset));
    assert Holding(opened', Flush(a).stack, first);
    if |lines| > 1 {
      LinesOkTail(lines);
      RestJoins(consume, opened', Flush(a).stack, first, lines[1..], number + 1, offset + |first + "\n"|);
      assert lines == [first] + lines[1..];
      JoinCons(first, lines[1..], "\n");
    } else {
      assert Terminated(lines)[1..] == [];
    }
  }

  /** `rs` are `before` and then one TB_LOG record for each entry. */
  predicate Holds(rs: seq<RawRecord>, before: seq<RawRecord>, log: seq<Entry>)
    requires ValidLog(log)
  {
    && |rs| == |before| + |log|
    && rs[..|before|] == before
    && forall i :: 0 <= i < |log| ==> HoldsEntry(rs, |before|, log, i)
  }

  predicate HoldsEntry(rs: seq<RawRecord>, n: nat, log: seq<Entry>, i: int)
    requires ValidLog(log) && 0 <= i < |log| && |rs| == n + |log|
  {
    rs[n + i].anchor == TbLog && rs[n + i].rawText == TextOf(log[i])
  }

  /** Reading an entry and more text is reading the entry, then the rest. */
  lemma EntryFirst(consume: (Asm, Line) -> Asm, a: Asm, e: Entry, rest: seq<string>, number: int, offset: int)
    returns (b: Asm, nextNumber: int, nextOffset: int)
    requires TakesPrinted(consume) && Ready(a) && ValidEntry(e) && !HeaderAlone(e.fields, e.wraps)
    ensures Holding(b, Flush(a).stack, TextOf(e)) && Ready(b) && TextOf(e) != ""
    ensures Feed(consume, a, LinesOf(Terminated(Printed(e.fields, e.wraps)) + rest, number, offset))
         == Feed(consume, b, LinesOf(rest, nextNumber, nextOffset))
  {
    hide Feed, LinesOf, Printed, Terminated, Ready, Holding, TotalLength, WellFormed;
    var lines := Terminated(Printed(e.fields, e.wraps));
    EntryJoins(consume, a, e, number, offset);
    PrintedEnd(e.fields, e.wraps);
    b := Feed(consume, a, LinesOf(lines, number, offset));
    nextNumber, nextOffset := number + |lines|, offset + TotalLength(lines);
    FeedAppend(consume, a, lines, rest, number, offset);
  }

  lemma {:induction false} LogJoins(consume: (Asm, Line) -> Asm, a: Asm, log: seq<Entry>, number: int, offset: int)
    requires TakesPrinted(consume) && Ready(a) && ValidLog(log) && NoHeaderAlone(log)
    requires a.current.Some? ==> a.current.value.rawText != ""
    ensures Holds(Flush(Feed(consume, a, LinesOf(PrintLog(log), number, offset))).stack, Flush(a).stack, log)
    decreases |log|
  {
    if log != [] {
      var b, n, o := EntryFirst(consume, a, log[0], PrintLog(log[1..]), number, offset);
      LogJoins(consume, b, log[1..], n, o);
      var rs := Flush(Feed(consume, a, LinesOf(PrintLog(log), number, offset))).stack;
      HoldsMore(rs, Flush(a).stack, b.current.value, log);
    }
  }

  lemma HoldsMore(rs: seq<RawRecord>, before: seq<RawRecord>, r: RawRecord, log: seq<Entry>)
    requires ValidLog(log) && log != []
    requires r.anchor == TbLog && r.rawText == TextOf(log[0])
    requires Holds(rs, before + [r], log[1..])
    ensures Holds(rs, before, log)
  {
    var n := |before|;
    assert rs[..n + 1] == before + [r];
    assert rs[n] == r && rs[..n] == before;
    forall i | 0 <= i < |log|
      ensures HoldsEntry(rs, n, log, i)
    {
      if i > 0 {
        assert HoldsEntry(rs, |before + [r]|, log[1..], i - 1);
      }
    }
  }

  // ---- a header line in the middle of a record breaks it -------------------

  ghost predicate HasHeader(rs: seq<RawRecord>) {
    exists i :: 0 <= i < |rs| && rs[i].anchor == PageHeader
  }

  predicate HeaderLine(line: string) {
    line != "" && !IsSpace(line[|line| - 1]) && IsPageHeader(line)
  }

  /** What the assembler does with page headers: they interrupt any record, and stay. */
  ghost predicate KeepsHeaders(consume: (Asm, Line) -> Asm) {
    && (forall a: Asm, line, number, offset :: !a.pageDatePending && HeaderLine(line) ==>
         HasHeader(consume(a, LineAt(line + "\n", number, offset)).stack))
    && (forall a: Asm, ln :: HasHeader(a.stack) ==> HasHeader(consume(a, ln).stack))
  }

  /** Records before the last one keep their kind, and so does the last one. */
  lemma StackGrows(a: Asm, content: string, seen: Seen, ln: Line)
    ensures var b := ConsumeSeen(a, content, seen, ln);
      |a.stack| <= |b.stack| && forall i :: 0 <= i < |a.stack| ==> b.stack[i].anchor == a.stack[i].anchor
  {
  }

  lemma HeaderStays(a: Asm, ln: Line)
    requires HasHeader(a.stack)
    ensures HasHeader(Consume(a, ln).stack)
  {
    StackGrows(a, RStrip(ln.text), Look(RStrip(ln.text)), ln);
    var i :| 0 <= i < |a.stack| && a.stack[i].anchor == PageHeader;
    assert Consume(a, ln).stack[i].anchor == PageHeader;
  }

  lemma HeaderInterrupts(a: Asm, line: string, number: int, offset: int)
    requires !a.pageDatePending && HeaderLine(line)
    ensures HasHeader(Consume(a, LineAt(line + "\n", number, offset)).stack)
  {
    LineContent(line, number, offset);
    var b := Consume(a, LineAt(line + "\n", number, offset));
    assert Look(line).anchor == Some(PageHeader);
    assert b.stack[|b.stack| - 1].anchor == PageHeader;
  }

  lemma ConsumerKeepsHeaders()
    ensures KeepsHeaders(Consumer())
  {
    hide Consume, HeaderLine, HasHeader, LineAt;
    forall a: Asm, line, number, offset | !a.pageDatePending && HeaderLine(line)
      ensures HasHeader(Consumer()(a, LineAt(line + "\n", number, offset)).stack)
    {
      HeaderInterrupts(a, line, number, offset);
    }
    forall a: Asm, ln | HasHeader(a.stack)
      ensures HasHeader(Consumer()(a, ln).stack)
    {
      HeaderStays(a, ln);
    }
  }

  lemma {:induction false} FeedKeepsHeader(consume: (Asm, Line) -> Asm, a: Asm, lines: seq<Line>)
    requires KeepsHeaders(consume) && HasHeader(a.stack)
    ensures HasHeader(Feed(consume, a, lines).stack)
    decreases |lines|
  {
    if lines != [] {
      FeedKeepsHeader(consume, consume(a, lines[0]), lines[1..]);
    }
  }

  /** The remaining lines of a record whose last line is a page header. */
  lemma {:induction false} RestBreaks(
    consume: (Asm, Line) -> Asm, a: Asm, stack: seq<RawRecord>, text: string, rest: seq<string>, number: int,
      offset: int)
    requires TakesPrinted(consume) && KeepsHeaders(consume) && Holding(a, stack, text)
    requires LinesOk(rest) && EndsWith(text, '-') && IsPageHeader(rest[|rest| - 1])
    ensures HasHeader(Feed(consume, a, LinesOf(Terminated(rest), number, offset)).stack)
    decreases |rest|
  {
    var line := rest[0];
    assert LineOk(line, |rest| == 1);
    FeedFirst(consume, a, Terminated(rest), number, offset);
    var b := consume(a, LineAt(line + "\n", number + 1, offset));
    if |rest| > 1 {
      LineIsNext(line, false);
      assert Holding(b, stack, text + "\n" + line);
      LinesOkTail(rest);
      RestBreaks(consume, b, stack, text + "\n" + line, rest[1..], number + 1, offset + |line + "\n"|);
    } else {
      assert HeaderLine(line);
      assert Terminated(rest)[1..] == [];
    }
  }

  lemma EntryBreaks(consume: (Asm, Line) -> Asm, a: Asm, e: Entry, number: int, offset: int)
    requires TakesPrinted(consume) && KeepsHeaders(consume) && Ready(a)
    requires ValidEntry(e) && HeaderAlone(e.fields, e.wraps)
    ensures HasHeader(Feed(consume, a, LinesOf(Terminated(Printed(e.fields, e.wraps)), number, offset)).stack)
  {
    hide HasHeader, KeepsHeaders, IsPageHeader, Feed, LineAt, Holding;
    var lines := Printed(e.fields, e.wraps);
    PrintedLines(e.fields, e.wraps);
    PrintedLast(e.fields, e.wraps);
    var first := lines[0];
    assert LineOk(first, |lines| == 1);
    assert StartLine(first);
    FeedFirst(consume, a, Terminated(lines), number, offset);
    LinesOkTail(lines);
    var begun := consume(a, LineAt(first + "\n", number + 1, offset));
    RestBreaks(consume, begun, Flush(a).stack, first, lines[1..], number + 1, offset + |first + "\n"|);
  }

  lemma {:induction false} LogBreaks(consume: (Asm, Line) -> Asm, a: Asm, log: seq<Entry>, number: int, offset: int)
    requires TakesPrinted(consume) && KeepsHeaders(consume) && Ready(a) && ValidLog(log) && !NoHeaderAlone(log)
    ensures HasHeader(Feed(consume, a, LinesOf(PrintLog(log), number, offset)).stack)
    decreases |log|
  {
    hide Feed, LinesOf, Printed, Terminated, Ready, Holding, TotalLength, WellFormed, HasHeader, HeaderAlone;
    var e, rest := log[0], PrintLog(log[1..]);
    if HeaderAlone(e.fields, e.wraps) {
      var lines := Terminated(Printed(e.fields, e.wraps));
      EntryBreaks(consume, a, e, number, offset);
      FeedAppend(consume, a, lines, rest, number, offset);
      FeedKeepsHeader(consume, Feed(consume, a, LinesOf(lines, number, offset)),
                      LinesOf(rest, number + |lines|, offset + TotalLength(lines)));
    } else {
      var b, n, o := EntryFirst(consume, a, e, rest, number, offset);
      LogBreaks(consume, b, log[1..], n, o);
    }
  }

  /** One TB_LOG record per entry, and each record's text parses to the entry's fields. */
  predicate ReadsBack(log: seq<Entry>, rs: seq<RawRecord>) {
    |rs| == |log| && forall i :: 0 <= i < |log| ==> rs[i].anchor == TbLog && FieldsOf(rs[i].rawText) == log[i].fields
  }

  lemma LogReadsBack(log: seq<Entry>)
    requires ValidLog(log) && NoHeaderAlone(log)
    ensures ReadsBack(log, Assemble(PrintLog(log)))
  {
    hide Feed, LinesOf, FieldsOf, NoHeaderAlone;
    ConsumerTakesPrinted();
    LogJoins(Consumer(), FRESH, log, 0, 0);
    var rs := Assemble(PrintLog(log));
    assert Holds(rs, [], log);
    forall i | 0 <= i < |log|
      ensures rs[i].anchor == TbLog && FieldsOf(rs[i].rawText) == log[i].fields
    {
      assert HoldsEntry(rs, 0, log, i);
      ReadPrinted(log[i].fields, log[i].wraps);
    }
  }

  /**
   * The log round trip: a printed log, wrapped in any way, reads back entry by entry
   * exactly when no entry puts a last field that reads as a page header on a line of its own.
   */
  lemma LogRoundTrip(log: seq<Entry>)
    requires ValidLog(log)
    ensures ReadsBack(log, Assemble(PrintLog(log))) <==> NoHeaderAlone(log)
  {
    hide Feed, LinesOf, FieldsOf, NoHeaderAlone;
    if NoHeaderAlone(log) {
      LogReadsBack(log);
    } else {
      ConsumerTakesPrinted();
      ConsumerKeepsHeaders();
      LogBreaks(Consumer(), FRESH, log, 0, 0);
      var a := Feed(Consumer(), FRESH, LinesOf(PrintLog(log), 0, 0));
      var i :| 0 <= i < |a.stack| && a.stack[i].anchor == PageHeader;
      assert Assemble(PrintLog(log))[i] == a.stack[i];
    }
  }

  // ---- why the last field must not be empty --------------------------------

  /** When a record's text ends in a dash, the record printed behind it is swallowed. */
  lemma OpenEndSwallowsNext(a: Asm, stack: seq<RawRecord>, text: string, line: string, number: int, offset: int)
    requires Holding(a, stack, text) && EndsWith(text, '-') && StartLine(line)
    ensures Holding(Consume(a, LineAt(line + "\n", number, offset)), stack, text + "\n" + line)
  {
    TbLogIsNoHeader(line);
    NextLineExtends(a, stack, text, line, number, offset);
  }
}
