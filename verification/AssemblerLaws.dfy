/**
 * What the assembler keeps: each line extends the last record or opens a new one, no
 * line is lost, duplicated or reordered, ranges never overlap, and a TB_LOG record is
 * only closed when it is complete.
 */
module AssemblerLaws {
  import opened Prelude
  import opened Text
  import opened Recognisers
  import opened Assembler

  /** All records in order, the open one last. */
  function Records(a: Asm): seq<RawRecord> {
    a.stack + (if a.current.Some? then [a.current.value] else [])
  }

  /**
   * A pending page date means a page header on top and nothing open; only four kinds
   * are ever open, and a record of these kinds at the end is still open.
   */
  predicate Sound(a: Asm) {
    && HeaderInvariant(a)
    && (a.current.Some? ==> StaysOpen(a.current.value.anchor) && a.current.value.rawText != "")
    && (a.current.None? && |a.stack| > 0 ==> !StaysOpen(a.stack[|a.stack| - 1].anchor))
  }

  function ExtendLast(rs: seq<RawRecord>, content: string, ln: Line): seq<RawRecord>
    requires |rs| > 0
  {
    rs[|rs| - 1 := Extend(rs[|rs| - 1], content, ln)]
  }

  /** Does the line join the record before it? */
  predicate Joins(a: Asm, content: string, seen: Seen) {
    if content == "" then a.current.Some?
    else
      (a.pageDatePending && seen.pageDate) ||
      (seen.anchor != Some(PageHeader) && a.current.Some? && Continues(a.current.value, content, seen))
  }

  function OpenedBy(content: string, seen: Seen, ln: Line): RawRecord {
    if seen.anchor == Some(PageHeader) then HeaderRecord(content, ln)
    else NewRecord(seen.anchor.GetOr(RawUnknown), content, ln)
  }

  lemma ConsumeTextIsOneStep(a: Asm, content: string, seen: Seen, ln: Line)
    requires Sound(a) && content != "" && seen.anchor != Some(PageHeader) && !a.pageDatePending
    ensures var b := ConsumeText(a, content, seen, ln);
      && Sound(b)
      && Records(b) == if Joins(a, content, seen) then ExtendLast(Records(a), content, ln)
                       else Records(a) + [OpenedBy(content, seen, ln)]
  {
  }

  /** Every line leaves the records alone (blank), extends the last one, or adds one behind it. */
  lemma OneLineOneStep(a: Asm, content: string, seen: Seen, ln: Line)
    requires Sound(a) && HeaderText(content, seen)
    ensures var b := ConsumeSeen(a, content, seen, ln);
      && Sound(b)
      && Records(b) == if Joins(a, content, seen) then ExtendLast(Records(a), content, ln)
                       else if content == "" then Records(a)
                       else Records(a) + [OpenedBy(content, seen, ln)]
  {
    if content != "" && !(a.pageDatePending && seen.pageDate) && seen.anchor != Some(PageHeader) {
      ConsumeTextIsOneStep(a.(pageDatePending := false), content, seen, ln);
    }
  }

  /** A page header line keeps some text when trimmed. */
  predicate HeaderText(content: string, seen: Seen) {
    seen.anchor == Some(PageHeader) && content != "" ==> Strip(LStripFormFeed(content)) != ""
  }

  // ---- TB_LOG records close only when complete -----------------------------

  predicate Complete(r: RawRecord) {
    Balanced(r.rawText) && !EndsWith(RStrip(r.rawText), '-')
  }

  /** A TB_LOG record followed by anything but a page header has even quotes and no trailing dash. */
  predicate ClosedComplete(rs: seq<RawRecord>) {
    forall i :: 0 <= i < |rs| - 1 && rs[i].anchor == TbLog && rs[i + 1].anchor != PageHeader ==> Complete(rs[i])
  }

  lemma StepKeepsComplete(a: Asm, content: string, seen: Seen, ln: Line)
    requires Sound(a) && HeaderText(content, seen) && ClosedComplete(Records(a))
    ensures ClosedComplete(Records(ConsumeSeen(a, content, seen, ln)))
  {
    hide ConsumeSeen, Complete, IsTbLogContinuation;
    OneLineOneStep(a, content, seen, ln);
    var rs := Records(a);
    if Joins(a, content, seen) {
      assert rs != [];
    } else if content != "" && |rs| > 0 && rs[|rs| - 1].anchor == TbLog && seen.anchor != Some(PageHeader) {
      assert a.current.Some? && rs[|rs| - 1] == a.current.value;
      NotGoingOnIsComplete(a.current.value, content);
    }
  }

  lemma NotGoingOnIsComplete(r: RawRecord, content: string)
    requires !IsTbLogContinuation(r.rawText, content)
    ensures Complete(r)
  {
  }

  // ---- ranges --------------------------------------------------------------

  predicate RangeUpTo(r: RawRecord, number: int, offset: int) {
    r.startLine <= r.endLine <= number && r.startOffset <= r.endOffset <= offset
  }

  /** Line and offset ranges increase and do not overlap; the last one ends within what was read. */
  predicate Ranged(rs: seq<RawRecord>, number: int, offset: int) {
    && (forall i :: 0 <= i < |rs| - 1 ==>
         RangeUpTo(rs[i], rs[i + 1].startLine - 1, rs[i + 1].startOffset))
    && (|rs| > 0 ==> RangeUpTo(rs[|rs| - 1], number, offset))
  }

  lemma StepKeepsRanged(a: Asm, content: string, seen: Seen, ln: Line, number: int, offset: int)
    requires Sound(a) && HeaderText(content, seen) && Ranged(Records(a), number, offset)
    requires ln.number == number + 1 && offset <= ln.offset <= ln.endOffset
    ensures Ranged(Records(ConsumeSeen(a, content, seen, ln)), ln.number, ln.endOffset)
  {
    OneLineOneStep(a, content, seen, ln);
    var rs := Records(a);
    if Joins(a, content, seen) {
      ExtendKeepsRanged(rs, content, ln, number, offset);
    } else if content != "" {
      OpenKeepsRanged(rs, OpenedBy(content, seen, ln), number, offset);
    }
  }

  lemma ExtendKeepsRanged(rs: seq<RawRecord>, content: string, ln: Line, number: int, offset: int)
    requires |rs| > 0 && Ranged(rs, number, offset)
    requires ln.number == number + 1 && offset <= ln.offset <= ln.endOffset
    ensures Ranged(ExtendLast(rs, content, ln), ln.number, ln.endOffset)
  {
    var after := ExtendLast(rs, content, ln);
    forall i | 0 <= i < |after| - 1
      ensures RangeUpTo(after[i], after[i + 1].startLine - 1, after[i + 1].startOffset)
    {
      assert RangeUpTo(rs[i], rs[i + 1].startLine - 1, rs[i + 1].startOffset);
    }
  }

  lemma OpenKeepsRanged(rs: seq<RawRecord>, r: RawRecord, number: int, offset: int)
    requires Ranged(rs, number, offset)
    requires r.startLine == r.endLine == number + 1 && offset <= r.startOffset <= r.endOffset
    ensures Ranged(rs + [r], r.endLine, r.endOffset)
  {
    var after := rs + [r];
    forall i | 0 <= i < |after| - 1
      ensures RangeUpTo(after[i], after[i + 1].startLine - 1, after[i + 1].startOffset)
    {
      if i < |rs| - 1 {
        assert RangeUpTo(rs[i], rs[i + 1].startLine - 1, rs[i + 1].startOffset);
      }
    }
  }

  // ---- line conservation ---------------------------------------------------

  function NonBlank(lines: seq<string>): seq<string> {
    if lines == [] then [] else (if lines[0] == "" then [] else [lines[0]]) + NonBlank(lines[1..])
  }

  /** The non-blank lines a record holds. */
  function LinesIn(r: RawRecord): seq<string> {
    NonBlank(TextLines(r.rawText))
  }

  function LinesOfAll(rs: seq<RawRecord>): seq<string> {
    if rs == [] then [] else LinesOfAll(rs[..|rs| - 1]) + LinesIn(rs[|rs| - 1])
  }

  lemma {:induction false} NonBlankAppend(lines: seq<string>, line: string)
    ensures NonBlank(lines + [line]) == NonBlank(lines) + (if line == "" then [] else [line])
  {
    if lines == [] {
      assert lines + [line] == [line];
    } else {
      assert (lines + [line])[1..] == lines[1..] + [line];
      NonBlankAppend(lines[1..], line);
    }
  }

  lemma ExtendAddsLine(r: RawRecord, content: string, ln: Line)
    requires '\n' !in content
    ensures LinesIn(Extend(r, content, ln)) == LinesIn(r) + (if content == "" then [] else [content])
  {
    TextLinesAppend(r.rawText, content);
    NonBlankAppend(TextLines(r.rawText), content);
  }

  /** What a line contributes to the records. */
  function Kept(content: string, seen: Seen): seq<string> {
    if content == "" then []
    else if seen.anchor == Some(PageHeader) then [Strip(LStripFormFeed(content))]
    else [content]
  }

  lemma NewHoldsLine(content: string, seen: Seen, ln: Line)
    requires content != "" && HeaderText(content, seen) && '\n' !in OpenedBy(content, seen, ln).rawText
    ensures LinesIn(OpenedBy(content, seen, ln)) == Kept(content, seen)
  {
    var text := OpenedBy(content, seen, ln).rawText;
    TextLinesSingle(text);
    assert text != "" && [text][1..] == [];
    assert NonBlank([text]) == [text] + NonBlank([]);
  }

  lemma LinesOfAllPush(rs: seq<RawRecord>, r: RawRecord)
    ensures LinesOfAll(rs + [r]) == LinesOfAll(rs) + LinesIn(r)
  {
    assert (rs + [r])[..|rs|] == rs;
  }

  lemma Regroup(a: seq<string>, b: seq<string>, c: seq<string>)
    ensures a + (b + c) == a + b + c
  {
  }

  lemma ExtendKeepsLines(rs: seq<RawRecord>, content: string, ln: Line)
    requires |rs| > 0 && '\n' !in content
    ensures LinesOfAll(ExtendLast(rs, content, ln)) == LinesOfAll(rs) + (if content == "" then [] else [content])
  {
    hide LinesOfAll, LinesIn;
    var init, last := rs[..|rs| - 1], rs[|rs| - 1];
    assert rs == init + [last];
    assert ExtendLast(rs, content, ln) == init + [Extend(last, content, ln)];
    LinesOfAllPush(init, last);
    LinesOfAllPush(init, Extend(last, content, ln));
    ExtendAddsLine(last, content, ln);
    Regroup(LinesOfAll(init), LinesIn(last), if content == "" then [] else [content]);
  }

  lemma StepKeepsLines(a: Asm, content: string, seen: Seen, ln: Line)
    requires Sound(a) && HeaderText(content, seen)
    requires seen.pageDate ==> seen.anchor != Some(PageHeader)
    requires '\n' !in content && '\n' !in OpenedBy(content, seen, ln).rawText
    ensures LinesOfAll(Records(ConsumeSeen(a, content, seen, ln))) == LinesOfAll(Records(a)) + Kept(content, seen)
  {
    OneLineOneStep(a, content, seen, ln);
    var rs := Records(a);
    if Joins(a, content, seen) {
      assert Kept(content, seen) == (if content == "" then [] else [content]);
      ExtendKeepsLines(rs, content, ln);
    } else if content != "" {
      LinesOfAllPush(rs, OpenedBy(content, seen, ln));
      NewHoldsLine(content, seen, ln);
    }
  }

  // ---- facts about real lines ----------------------------------------------

  lemma {:induction false} StripFormFeed(s: string)
    ensures Strip(LStripFormFeed(s)) == Strip(s)
  {
    if s != "" && s[0] == '\U{c}' {
      StripFormFeed(s[1..]);
    }
  }

  lemma RightTrimmedNotBlank(s: string)
    ensures RStrip(s) != "" ==> Strip(RStrip(s)) != ""
  {
    var t := RStrip(s);
    var pad := RStripPrefix(s);
    var before, after := StripParts(t);
    assert Strip(t) == "" ==> t == before + after;
    assert Strip(t) == "" ==> AllSpace(t);
  }

  lemma LookIsSound(s: string)
    ensures var content, seen := RStrip(s), Look(RStrip(s));
      HeaderText(content, seen) && (seen.pageDate ==> seen.anchor != Some(PageHeader))
  {
    StripFormFeed(RStrip(s));
    RightTrimmedNotBlank(s);
    if IsPageDate(RStrip(s)) {
      PageDateIsNoHeader(RStrip(s));
    }
  }

  // ---- whole streams -------------------------------------------------------

  /** What iterating over a text file yields: a newline only at the end. */
  predicate Physical(raw: string) {
    forall i :: 0 <= i < |raw| - 1 ==> raw[i] != '\n'
  }

  lemma {:induction false} ChopThenTrim(raw: string)
    ensures RStrip(ChopNewline(raw)) == RStrip(raw)
    ensures ChopNewline(raw) <= raw
    ensures Physical(raw) ==> '\n' !in ChopNewline(raw)
  {
    if raw != "" && (raw[|raw| - 1] == '\n' || raw[|raw| - 1] == '\r') {
      ChopThenTrim(raw[..|raw| - 1]);
    }
  }

  lemma NoNewlineWithin(s: string, pre: string, mid: string, post: string)
    requires s == pre + mid + post && '\n' !in s
    ensures '\n' !in mid
  {
    forall i | 0 <= i < |mid|
      ensures mid[i] != '\n'
    {
      assert s[|pre| + i] == mid[i];
    }
  }

  lemma TrimmedHasNoNewline(s: string)
    requires '\n' !in s
    ensures '\n' !in RStrip(s) && '\n' !in Strip(s)
  {
    var pad := RStripPrefix(s);
    NoNewlineWithin(s, "", RStrip(s), pad);
    var before, after := StripParts(s);
    NoNewlineWithin(s, before, Strip(s), after);
  }

  /** The non-blank lines of the input: right-trimmed, page headers trimmed on both sides. */
  function InputLines(raws: seq<string>): seq<string>
    decreases |raws|
  {
    if raws == [] then [] else InputLine(RStrip(raws[0])) + InputLines(raws[1..])
  }

  function InputLine(content: string): seq<string> {
    if content == "" then [] else if IsPageHeader(content) then [Strip(content)] else [content]
  }

  /** The four laws of a state that has read `number` lines and `offset` characters. */
  predicate Lawful(a: Asm, number: int, offset: int) {
    Sound(a) && Ranged(Records(a), number, offset) && ClosedComplete(Records(a))
  }

  lemma SeenKeepsLaws(a: Asm, content: string, seen: Seen, ln: Line, number: int, offset: int, read: int)
    requires Lawful(a, number, offset) && HeaderText(content, seen)
    requires seen.pageDate ==> seen.anchor != Some(PageHeader)
    requires ln.number == number + 1 && offset <= ln.offset <= ln.endOffset <= read
    requires '\n' !in content && '\n' !in Strip(LStripFormFeed(content))
    ensures var b := ConsumeSeen(a, content, seen, ln);
      && Lawful(b, number + 1, read)
      && LinesOfAll(Records(b)) == LinesOfAll(Records(a)) + Kept(content, seen)
  {
    OneLineOneStep(a, content, seen, ln);
    StepKeepsRanged(a, content, seen, ln, number, offset);
    StepKeepsComplete(a, content, seen, ln);
    StepKeepsLines(a, content, seen, ln);
  }

  lemma LookKeeps(content: string)
    ensures Kept(content, Look(content)) == InputLine(content)
  {
    StripFormFeed(content);
  }

  lemma LineFacts(raw: string, number: int, offset: int)
    requires Physical(raw)
    ensures var ln, content := LineAt(raw, number, offset), RStrip(raw);
      && ln.number == number && ln.offset == offset && offset <= ln.endOffset <= offset + |raw|
      && RStrip(ln.text) == content
      && '\n' !in content && '\n' !in Strip(LStripFormFeed(content))
  {
    ChopThenTrim(raw);
    TrimmedHasNoNewline(ChopNewline(raw));
    TrimmedHasNoNewline(RStrip(raw));
    StripFormFeed(RStrip(raw));
  }

  /** One physical line keeps the laws and adds its own text. */
  lemma LineKeepsLaws(a: Asm, raw: string, number: int, offset: int)
    requires Lawful(a, number, offset) && Physical(raw)
    ensures var b := Consume(a, LineAt(raw, number + 1, offset));
      && Lawful(b, number + 1, offset + |raw|)
      && LinesOfAll(Records(b)) == LinesOfAll(Records(a)) + InputLine(RStrip(raw))
  {
    hide Look, ConsumeSeen, Lawful, Kept, InputLine, HeaderText, LinesOfAll, Records, LineAt;
    hide RStrip, LStrip, Strip, LStripFormFeed, ChopNewline, Physical;
    var content := RStrip(raw);
    LineFacts(raw, number + 1, offset);
    LookIsSound(raw);
    LookKeeps(content);
    SeenKeepsLaws(a, content, Look(content), LineAt(raw, number + 1, offset), number, offset, offset + |raw|);
  }

  type Law = (Asm, int, int) -> bool

  ghost function TheLaws(): Law {
    (a, number, offset) => Lawful(a, number, offset)
  }

  function Held(): Asm -> seq<string> {
    a => LinesOfAll(Records(a))
  }

  /** `consume` keeps `law` and adds the text of the line to what is held. */
  ghost predicate KeepsLaw(consume: (Asm, Line) -> Asm, law: Law, held: Asm -> seq<string>) {
    forall a, raw, number, offset :: law(a, number - 1, offset) && Physical(raw) ==>
      LineKept(law, held, a, consume(a, LineAt(raw, number, offset)), raw, number, offset)
  }

  predicate LineKept(law: Law, held: Asm -> seq<string>, a: Asm, b: Asm, raw: string, number: int, offset: int) {
    law(b, number, offset + |raw|) && held(b) == held(a) + InputLine(RStrip(raw))
  }

  lemma ConsumerKeepsLaws()
    ensures KeepsLaw(Consumer(), TheLaws(), Held())
  {
    hide Consume, Lawful, LinesOfAll, InputLine, RStrip;
    forall a, raw, number, offset | TheLaws()(a, number - 1, offset) && Physical(raw)
      ensures LineKept(TheLaws(), Held(), a, Consumer()(a, LineAt(raw, number, offset)), raw, number, offset)
    {
      LineKeepsLaws(a, raw, number - 1, offset);
    }
  }

  predicate AllPhysical(raws: seq<string>) {
    forall i :: 0 <= i < |raws| ==> Physical(raws[i])
  }

  function TotalLength(raws: seq<string>): nat {
    if raws == [] then 0 else |raws[0]| + TotalLength(raws[1..])
  }

  lemma FeedFirst(consume: (Asm, Line) -> Asm, a: Asm, raws: seq<string>, number: int, offset: int)
    requires raws != []
    ensures Feed(consume, a, LinesOf(raws, number, offset))
         == Feed(consume, consume(a, LineAt(raws[0], number + 1, offset)),
              LinesOf(raws[1..], number + 1, offset + |raws[0]|))
  {
    var all := LinesOf(raws, number, offset);
    assert all[1..] == LinesOf(raws[1..], number + 1, offset + |raws[0]|);
  }

  lemma {:induction false} FeedAppend(
    consume: (Asm, Line) -> Asm, a: Asm, x: seq<string>, y: seq<string>, number: int, offset: int)
    ensures Feed(consume, a, LinesOf(x + y, number, offset))
         == Feed(consume, Feed(consume, a, LinesOf(x, number, offset)),
              LinesOf(y, number + |x|, offset + TotalLength(x)))
    decreases |x|
  {
    if x == [] {
      assert x + y == y;
    } else {
      assert (x + y)[1..] == x[1..] + y;
      FeedFirst(consume, a, x + y, number, offset);
      FeedFirst(consume, a, x, number, offset);
      FeedAppend(consume, consume(a, LineAt(x[0], number + 1, offset)), x[1..], y, number + 1, offset + |x[0]|);
    }
  }

  lemma {:induction false} FeedKeepsLaw(
    consume: (Asm, Line) -> Asm, law: Law, held: Asm -> seq<string>, a: Asm, raws: seq<string>, number: int,
      offset: int)
    requires KeepsLaw(consume, law, held) && law(a, number, offset) && AllPhysical(raws)
    ensures var b := Feed(consume, a, LinesOf(raws, number, offset));
      && law(b, number + |raws|, offset + TotalLength(raws))
      && held(b) == held(a) + InputLines(raws)
    decreases |raws|
  {
    hide LineAt, InputLine, RStrip, Physical;
    if raws != [] {
      var ln := LineAt(raws[0], number + 1, offset);
      var b := consume(a, ln);
      assert LineKept(law, held, a, b, raws[0], number + 1, offset);
      FeedKeepsLaw(consume, law, held, b, raws[1..], number + 1, offset + |raws[0]|);
      assert LinesOf(raws, number, offset)[0] == ln;
      assert LinesOf(raws, number, offset)[1..] == LinesOf(raws[1..], number + 1, offset + |raws[0]|);
    }
  }

  lemma FreshIsLawful()
    ensures TheLaws()(FRESH, 0, 0) && Held()(FRESH) == []
  {
  }

  lemma StreamIsLawful(raws: seq<string>) returns (end: Asm)
    requires AllPhysical(raws)
    ensures end == Feed(Consumer(), FRESH, LinesOf(raws, 0, 0))
    ensures Lawful(end, |raws|, TotalLength(raws))
    ensures LinesOfAll(Records(end)) == InputLines(raws)
  {
    hide Consumer, Feed, LinesOf, InputLines, Lawful, LinesOfAll, Records, KeepsLaw;
    ConsumerKeepsLaws();
    FreshIsLawful();
    FeedKeepsLaw(Consumer(), TheLaws(), Held(), FRESH, raws, 0, 0);
    end := Feed(Consumer(), FRESH, LinesOf(raws, 0, 0));
  }

  lemma FlushShowsAll(a: Asm)
    requires Sound(a)
    ensures Flush(a).stack == Records(a)
  {
  }

  /**
   * For every input: the non-blank lines of all records in order are the non-blank
   * input lines in order; line and offset ranges increase without overlap; a TB_LOG
   * record not followed by a page header and not last is complete.
   */
  lemma StreamLaws(raws: seq<string>)
    requires AllPhysical(raws)
    ensures LinesOfAll(Assemble(raws)) == InputLines(raws)
    ensures Ranged(Assemble(raws), |raws|, TotalLength(raws))
    ensures ClosedComplete(Assemble(raws))
  {
    var end := StreamIsLawful(raws);
    FlushShowsAll(end);
  }

  /** At any point of any stream: the page-date and open-record invariant. */
  lemma StreamSound(raws: seq<string>)
    requires AllPhysical(raws)
    ensures Sound(Feed(Consumer(), FRESH, LinesOf(raws, 0, 0)))
  {
    var _ := StreamIsLawful(raws);
  }

  /** Status, checkpoint, sleep and call records are never open, so their continuation branch is never taken. */
  lemma StreamingBranchUnreachable(raws: seq<string>)
    requires AllPhysical(raws)
    ensures var a := Feed(Consumer(), FRESH, LinesOf(raws, 0, 0));
      a.current.Some? ==> !Streams(a.current.value.anchor)
  {
    var _ := StreamIsLawful(raws);
  }
}
