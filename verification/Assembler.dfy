/**
 * The streaming record assembler (src/sassessment/legacy_logs/assembler.py): groups
 * physical lines into draft records with line and offset ranges.
 */
module Assembler {
  import opened Prelude
  import opened Text
  import opened Recognisers

  datatype RawRecord = RawRecord(
    anchor: Anchor, startLine: int, endLine: int, startOffset: int, endOffset: int, rawText: string)

  datatype Asm = Asm(stack: seq<RawRecord>, current: Option<RawRecord>, pageDatePending: bool)

  /** A physical line with its number and its offsets. */
  datatype Line = Line(text: string, number: int, offset: int, endOffset: int)

  const FRESH := Asm([], None, false)

  /** Whether a wrapped TB_LOG record goes on: an open quote, a trailing or leading dash, a leading quote. */
  predicate IsTbLogContinuation(currentText: string, nextContent: string) {
    var stripped := LStrip(nextContent);
    || !Balanced(currentText)
    || stripped == ""
    || EndsWith(RStrip(currentText), '-')
    || stripped[0] == '"'
    || stripped[0] == '-'
  }

  function LStripFormFeed(s: string): string {
    if s != "" && s[0] == '\U{c}' then LStripFormFeed(s[1..]) else s
  }

  predicate Streams(kind: Anchor) {
    kind == FrameworkStatus || kind == Checkpoint || kind == TimeSleep || kind == CallDmf
  }

  /** What the patterns say about one line. */
  datatype Seen = Seen(anchor: Option<Anchor>, pageDate: bool, numbered: bool)

  function Look(content: string): Seen {
    Seen(DetectAnchor(content), IsPageDate(content), IsNumberedContinuation(content))
  }

  /** Is `content` one more line of the open record `r`? */
  predicate Continues(r: RawRecord, content: string, seen: Seen) {
    match r.anchor
    case TbLog => IsTbLogContinuation(r.rawText, content)
    case SasSource => seen.anchor == Some(SasSourceCont) || seen.numbered
    case SasMessage => seen.anchor == None
    case SasAutovar => seen.anchor == None
    case _ => Streams(r.anchor) && " " <= content
  }

  /** Only these kinds are ever left open. */
  predicate StaysOpen(kind: Anchor) {
    kind == TbLog || kind == SasMessage || kind == SasAutovar || kind == SasSource
  }

  function NewRecord(anchor: Anchor, text: string, ln: Line): RawRecord {
    RawRecord(anchor, ln.number, ln.number, ln.offset, ln.endOffset, text)
  }

  function Extend(r: RawRecord, content: string, ln: Line): RawRecord {
    r.(rawText := r.rawText + "\n" + content, endLine := ln.number, endOffset := ln.endOffset)
  }

  /** Closes the open record, if any. */
  function Flush(a: Asm): Asm {
    if a.current.Some? && a.current.value.rawText != ""
    then a.(stack := a.stack + [a.current.value], current := None)
    else a.(current := None)
  }

  /** Closes an open record of the kinds that can be continued. */
  function Closed(a: Asm): Asm {
    if a.current.Some? && (StaysOpen(a.current.value.anchor) || Streams(a.current.value.anchor)) then Flush(a) else a
  }

  function Push(a: Asm, r: RawRecord): Asm {
    a.(stack := a.stack + [r])
  }

  /** A line that is neither blank, nor a page date, nor a page header. */
  function ConsumeText(a: Asm, content: string, seen: Seen, ln: Line): Asm {
    if a.current.Some? && Continues(a.current.value, content, seen)
    then a.(current := Some(Extend(a.current.value, content, ln)))
    else
      var closed := Closed(a);
      if seen.anchor == None then Push(closed, NewRecord(RawUnknown, content, ln))
      else
        var r := NewRecord(seen.anchor.value, content, ln);
        if StaysOpen(r.anchor) then Flush(closed).(current := Some(r)) else Push(Flush(closed), r)
  }

  function ConsumeBlank(a: Asm, content: string, ln: Line): Asm {
    if a.pageDatePending || a.current.None? then a
    else a.(current := Some(Extend(a.current.value, content, ln)))
  }

  function HeaderRecord(content: string, ln: Line): RawRecord {
    NewRecord(PageHeader, Strip(LStripFormFeed(content)), ln)
  }

  /** One right-trimmed line, however the patterns see it. */
  function ConsumeSeen(a: Asm, content: string, seen: Seen, ln: Line): Asm {
    if content == "" then ConsumeBlank(a, content, ln)
    else if a.pageDatePending && |a.stack| > 0 && seen.pageDate then
      a.(stack := a.stack[|a.stack| - 1 := Extend(a.stack[|a.stack| - 1], content, ln)], pageDatePending := false)
    else if seen.anchor == Some(PageHeader) then
      Push(Flush(a), HeaderRecord(content, ln)).(pageDatePending := true)
    else
      ConsumeText(a.(pageDatePending := false), content, seen, ln)
  }

  function Consume(a: Asm, ln: Line): Asm {
    ConsumeSeen(a, RStrip(ln.text), Look(RStrip(ln.text)), ln)
  }

  // ---- the object ----------------------------------------------------------

  /** A page date is only awaited right behind a page header, with no record open. */
  predicate HeaderInvariant(a: Asm) {
    a.pageDatePending ==> a.current.None? && |a.stack| > 0 && a.stack[|a.stack| - 1].anchor == PageHeader
  }

  class LogAssembler {
    var stack: seq<RawRecord>
    var current: Option<RawRecord>
    var pageDatePending: bool

    function State(): Asm
      reads this
    {
      Asm(stack, current, pageDatePending)
    }

    constructor ()
      ensures State() == FRESH
    {
      stack := [];
      current := None;
      pageDatePending := false;
    }

    method FlushCurrent() returns (r: Option<RawRecord>)
      modifies this
      ensures State() == Flush(old(State()))
      ensures r == if old(current).Some? && old(current).value.rawText != "" then old(current) else None
    {
      r := current;
      current := None;
      if r.Some? && r.value.rawText != "" {
        stack := stack + [r.value];
      } else {
        r := None;
      }
    }

    method ExtendCurrent(content: string, ln: Line)
      requires current.Some?
      modifies this`current
      ensures current == Some(Extend(old(current).value, content, ln))
    {
      current := Some(current.value.(
        rawText := current.value.rawText + "\n" + content, endLine := ln.number, endOffset := ln.endOffset));
    }

    /** Joins the line to the open record, or closes that record; only the kinds listed are ever open. */
    method JoinOrClose(content: string, seen: Seen, ln: Line) returns (joined: bool)
      modifies this
      ensures joined <==> old(current).Some? && Continues(old(current).value, content, seen)
      ensures joined ==> State() == old(State()).(current := Some(Extend(old(current).value, content, ln)))
      ensures !joined ==> State() == Closed(old(State()))
    {
      joined := false;
      if current.Some? {
        var kind := current.value.anchor;
        if kind == TbLog {
          joined := IsTbLogContinuation(current.value.rawText, content);
        } else if kind == SasSource {
          joined := seen.anchor == Some(SasSourceCont) || seen.numbered;
        } else if kind == SasMessage || kind == SasAutovar {
          joined := seen.anchor == None;
        } else if kind == FrameworkStatus || kind == Checkpoint || kind == TimeSleep || kind == CallDmf {
          joined := " " <= content;
        } else {
          return;
        }
        if joined {
          ExtendCurrent(content, ln);
        } else {
          var _ := FlushCurrent();
        }
      }
    }

    /** The part of `consume` for text lines. */
    method ConsumeTextLine(content: string, seen: Seen, ln: Line)
      modifies this
      ensures State() == ConsumeText(old(State()), content, seen, ln)
    {
      hide IsTbLogContinuation;
      var anchor := seen.anchor;
      var joined := JoinOrClose(content, seen, ln);
      if joined {
        return;
      }
      if anchor == None {
        stack := stack + [NewRecord(RawUnknown, content, ln)];
        return;
      }
      var _ := FlushCurrent();
      var record := NewRecord(anchor.value, content, ln);
      if anchor == Some(TbLog) {
        current := Some(record);
      } else if anchor == Some(SasMessage) || anchor == Some(SasAutovar) {
        current := Some(record);
      } else if anchor == Some(FrameworkStatus) || anchor == Some(Checkpoint)
             || anchor == Some(TimeSleep) || anchor == Some(CallDmf) {
        stack := stack + [record];
      } else if anchor == Some(SasSource) {
        current := Some(record);
      } else {
        stack := stack + [record];
      }
    }

    method ConsumeContent(content: string, seen: Seen, ln: Line)
      requires HeaderInvariant(State())
      modifies this
      ensures State() == ConsumeSeen(old(State()), content, seen, ln)
      ensures HeaderInvariant(State())
    {
      if content == "" {
        if pageDatePending {
          return;
        }
        if current.Some? {
          ExtendCurrent(content, ln);
        }
        return;
      }
      if pageDatePending && seen.pageDate {
        var header := stack[|stack| - 1];
        stack := stack[|stack| - 1 := Extend(header, content, ln)];
        pageDatePending := false;
        return;
      }
      pageDatePending := false;
      if seen.anchor == Some(PageHeader) {
        var _ := FlushCurrent();
        stack := stack + [HeaderRecord(content, ln)];
        pageDatePending := true;
        return;
      }
      ConsumeTextLine(content, seen, ln);
      TextKeepsNothingPending(old(State()).(pageDatePending := false), content, seen, ln);
    }

    method ConsumeLine(ln: Line)
      requires HeaderInvariant(State())
      modifies this
      ensures State() == Consume(old(State()), ln)
      ensures HeaderInvariant(State())
    {
      var content := RStrip(ln.text);
      ConsumeContent(content, Look(content), ln);
    }
  }

  lemma TextKeepsNothingPending(a: Asm, content: string, seen: Seen, ln: Line)
    requires !a.pageDatePending
    ensures !ConsumeText(a, content, seen, ln).pageDatePending
  {
  }

  // ---- a whole stream ------------------------------------------------------

  /** Drops every carriage return and newline at the end. */
  function ChopNewline(raw: string): string {
    if raw != "" && (raw[|raw| - 1] == '\n' || raw[|raw| - 1] == '\r') then ChopNewline(raw[..|raw| - 1]) else raw
  }

  function LineAt(raw: string, number: int, offset: int): Line {
    var content := ChopNewline(raw);
    Line(content, number, offset, offset + |content|)
  }

  /** The lines of a stream, numbered from `number` + 1, at their offsets. */
  function LinesOf(raws: seq<string>, number: int, offset: int): seq<Line>
    decreases |raws|
  {
    if raws == [] then []
    else [LineAt(raws[0], number + 1, offset)] + LinesOf(raws[1..], number + 1, offset + |raws[0]|)
  }

  function Feed(consume: (Asm, Line) -> Asm, a: Asm, lines: seq<Line>): Asm
    decreases |lines|
  {
    if lines == [] then a else Feed(consume, consume(a, lines[0]), lines[1..])
  }

  function Consumer(): (Asm, Line) -> Asm {
    (a, ln) => Consume(a, ln)
  }

  /** All the records of a stream of physical lines. */
  function Assemble(raws: seq<string>): seq<RawRecord> {
    Flush(Feed(Consumer(), FRESH, LinesOf(raws, 0, 0))).stack
  }

  method AssembleRecords(raws: seq<string>) returns (records: seq<RawRecord>)
    ensures records == Assemble(raws)
  {
    hide ConsumeSeen, Look;
    var assembler := new LogAssembler();
    var offset, number := 0, 0;
    assert raws[0..] == raws;
    for i := 0 to |raws|
      invariant HeaderInvariant(assembler.State())
      invariant Feed(Consumer(), assembler.State(), LinesOf(raws[i..], number, offset))
        == Feed(Consumer(), FRESH, LinesOf(raws, 0, 0))
    {
      var rest := raws[i..];
      assert rest[0] == raws[i] && rest[1..] == raws[i + 1..];
      number := number + 1;
      ghost var before := assembler.State();
      assembler.ConsumeLine(LineAt(raws[i], number, offset));
      assert Consumer()(before, LineAt(raws[i], number, offset)) == assembler.State();
      offset := offset + |raws[i]|;
    }
    var _ := assembler.FlushCurrent();
    records := assembler.stack;
  }
}
