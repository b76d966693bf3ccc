/**
 * Where the text of a record comes from: its line range names exactly the lines it
 * holds, its offsets are theirs, and only blank lines lie outside all ranges.
 */
module Provenance {
  import opened Prelude
  import opened Text
  import opened Recognisers
  import opened Assembler
  import opened AssemblerLaws

  // ---- slices of the input -------------------------------------------------

  lemma {:induction false} InputLinesAppend(x: seq<string>, y: seq<string>)
    ensures InputLines(x + y) == InputLines(x) + InputLines(y)
    decreases |x|
  {
    if x == [] {
      assert x + y == y;
    } else {
      assert (x + y)[1..] == x[1..] + y;
      InputLinesAppend(x[1..], y);
      Regroup(InputLine(RStrip(x[0])), InputLines(x[1..]), InputLines(y));
    }
  }

  lemma {:induction false} TotalLengthAppend(x: seq<string>, y: seq<string>)
    ensures TotalLength(x + y) == TotalLength(x) + TotalLength(y)
    decreases |x|
  {
    if x == [] {
      assert x + y == y;
    } else {
      assert (x + y)[1..] == x[1..] + y;
      TotalLengthAppend(x[1..], y);
    }
  }

  lemma InputLinesPush(raws: seq<string>, raw: string)
    ensures InputLines(raws + [raw]) == InputLines(raws) + InputLine(RStrip(raw))
  {
    InputLinesAppend(raws, [raw]);
    assert [raw][1..] == [];
    assert InputLines([raw]) == InputLine(RStrip(raw));
  }

  /** What lines `from` + 1 to `to` hold. */
  function LinesBetween(raws: seq<string>, from: int, to: int): seq<string>
    requires 0 <= from <= to <= |raws|
  {
    InputLines(raws[from..to])
  }

  lemma LinesBetweenJoin(raws: seq<string>, from: int, mid: int, to: int)
    requires 0 <= from <= mid <= to <= |raws|
    ensures LinesBetween(raws, from, to) == LinesBetween(raws, from, mid) + LinesBetween(raws, mid, to)
  {
    assert raws[from..to] == raws[from..mid] + raws[mid..to];
    InputLinesAppend(raws[from..mid], raws[mid..to]);
  }

  /** Reading on leaves earlier ranges as they were. */
  lemma LinesBetweenStay(raws: seq<string>, raw: string, from: int, to: int)
    requires 0 <= from <= to <= |raws|
    ensures LinesBetween(raws + [raw], from, to) == LinesBetween(raws, from, to)
  {
    assert (raws + [raw])[from..to] == raws[from..to];
  }

  lemma LinesBetweenPush(raws: seq<string>, raw: string, from: int)
    requires 0 <= from <= |raws|
    ensures LinesBetween(raws + [raw], from, |raws| + 1) == LinesBetween(raws, from, |raws|) + InputLine(RStrip(raw))
  {
    assert (raws + [raw])[from..|raws| + 1] == raws[from..|raws|] + [raw];
    InputLinesPush(raws[from..|raws|], raw);
  }

  // ---- records and their ranges --------------------------------------------

  /** Where line `n` starts, and where its text without the line end stops. */
  function LineStart(raws: seq<string>, n: int): int
    requires 1 <= n <= |raws|
  {
    TotalLength(raws[..n - 1])
  }

  function LineStop(raws: seq<string>, n: int): int
    requires 1 <= n <= |raws|
  {
    LineStart(raws, n) + |ChopNewline(raws[n - 1])|
  }

  /** The record holds exactly the non-blank lines of its range, and spans their offsets. */
  predicate HoldsItsRange(r: RawRecord, raws: seq<string>) {
    && 1 <= r.startLine <= r.endLine <= |raws|
    && LinesIn(r) == LinesBetween(raws, r.startLine - 1, r.endLine)
    && r.startOffset == LineStart(raws, r.startLine)
    && r.endOffset == LineStop(raws, r.endLine)
  }

  /** The end of the range before record `i`. */
  function EndBefore(rs: seq<RawRecord>, i: int): int
    requires 0 <= i <= |rs|
  {
    if i == 0 then 0 else rs[i - 1].endLine
  }

  /** Only blank lines between the ranges of records `i` - 1 and `i`. */
  predicate BlankBefore(rs: seq<RawRecord>, raws: seq<string>, i: int)
    requires 0 <= i < |rs|
  {
    && 0 <= EndBefore(rs, i) < rs[i].startLine <= |raws| + 1
    && LinesBetween(raws, EndBefore(rs, i), rs[i].startLine - 1) == []
  }

  predicate BlankBehind(rs: seq<RawRecord>, raws: seq<string>) {
    0 <= EndBefore(rs, |rs|) <= |raws| && LinesBetween(raws, EndBefore(rs, |rs|), |raws|) == []
  }

  predicate Sourced(rs: seq<RawRecord>, raws: seq<string>) {
    && (forall i :: 0 <= i < |rs| ==> HoldsItsRange(rs[i], raws) && BlankBefore(rs, raws, i))
    && BlankBehind(rs, raws)
  }

  lemma LinePositions(raws: seq<string>, raw: string, n: int)
    requires 1 <= n <= |raws|
    ensures LineStart(raws + [raw], n) == LineStart(raws, n) && LineStop(raws + [raw], n) == LineStop(raws, n)
  {
    assert (raws + [raw])[..n - 1] == raws[..n - 1];
  }

  lemma NewLinePosition(raws: seq<string>, raw: string)
    ensures LineStart(raws + [raw], |raws| + 1) == TotalLength(raws)
    ensures LineStop(raws + [raw], |raws| + 1) == TotalLength(raws) + |ChopNewline(raw)|
  {
    assert (raws + [raw])[..|raws|] == raws;
  }

  lemma RangeStays(r: RawRecord, raws: seq<string>, raw: string)
    requires HoldsItsRange(r, raws)
    ensures HoldsItsRange(r, raws + [raw])
  {
    LinesBetweenStay(raws, raw, r.startLine - 1, r.endLine);
    LinePositions(raws, raw, r.startLine);
    LinePositions(raws, raw, r.endLine);
  }

  lemma EarlierStay(rs: seq<RawRecord>, raws: seq<string>, raw: string, i: int)
    requires 0 <= i < |rs| && HoldsItsRange(rs[i], raws) && BlankBefore(rs, raws, i)
    ensures HoldsItsRange(rs[i], raws + [raw]) && BlankBefore(rs, raws + [raw], i)
  {
    RangeStays(rs[i], raws, raw);
    LinesBetweenStay(raws, raw, EndBefore(rs, i), rs[i].startLine - 1);
  }

  /** A blank line that joins nothing. */
  lemma SkipSourced(rs: seq<RawRecord>, raws: seq<string>, raw: string)
    requires Sourced(rs, raws) && RStrip(raw) == ""
    ensures Sourced(rs, raws + [raw])
  {
    forall i | 0 <= i < |rs|
      ensures HoldsItsRange(rs[i], raws + [raw]) && BlankBefore(rs, raws + [raw], i)
    {
      EarlierStay(rs, raws, raw, i);
    }
    LinesBetweenPush(raws, raw, EndBefore(rs, |rs|));
  }

  /** The line, as the assembler sees it. */
  predicate IsLine(ln: Line, raws: seq<string>, raw: string) {
    && ln.number == |raws| + 1
    && ln.offset == TotalLength(raws)
    && ln.endOffset == TotalLength(raws) + |ChopNewline(raw)|
  }

  lemma ExtendHoldsRange(r: RawRecord, raws: seq<string>, raw: string, content: string, ln: Line)
    requires HoldsItsRange(r, raws) && IsLine(ln, raws, raw) && '\n' !in content
    requires LinesBetween(raws, r.endLine, |raws|) == []
    requires InputLine(RStrip(raw)) == if content == "" then [] else [content]
    ensures HoldsItsRange(Extend(r, content, ln), raws + [raw])
  {
    hide LinesIn, InputLine, LinesBetween;
    ExtendAddsLine(r, content, ln);
    LinesBetweenJoin(raws, r.startLine - 1, r.endLine, |raws|);
    LinesBetweenPush(raws, raw, r.startLine - 1);
    LinePositions(raws, raw, r.startLine);
    NewLinePosition(raws, raw);
  }

  /** Neither a record's own end nor what comes behind it matters to the gap before it. */
  lemma GapStays(rs: seq<RawRecord>, after: seq<RawRecord>, raws: seq<string>, raw: string, i: int)
    requires 0 <= i < |rs| && i < |after| && BlankBefore(rs, raws, i)
    requires EndBefore(after, i) == EndBefore(rs, i) && after[i].startLine == rs[i].startLine
    ensures BlankBefore(after, raws + [raw], i)
  {
    LinesBetweenStay(raws, raw, EndBefore(rs, i), rs[i].startLine - 1);
  }

  lemma ExtendSourced(rs: seq<RawRecord>, raws: seq<string>, raw: string, content: string, ln: Line)
    requires |rs| > 0 && Sourced(rs, raws) && IsLine(ln, raws, raw) && '\n' !in content
    requires InputLine(RStrip(raw)) == if content == "" then [] else [content]
    ensures Sourced(ExtendLast(rs, content, ln), raws + [raw])
  {
    hide HoldsItsRange, BlankBefore, InputLine, LinesBetween;
    var after, last := ExtendLast(rs, content, ln), |rs| - 1;
    ExtendHoldsRange(rs[last], raws, raw, content, ln);
    forall i | 0 <= i < |after|
      ensures HoldsItsRange(after[i], raws + [raw]) && BlankBefore(after, raws + [raw], i)
    {
      GapStays(rs, after, raws, raw, i);
      if i < last {
        RangeStays(rs[i], raws, raw);
      }
    }
    NothingBehind(raws, raw);
  }

  lemma NothingBehind(raws: seq<string>, raw: string)
    ensures LinesBetween(raws + [raw], |raws| + 1, |raws| + 1) == []
  {
  }

  lemma NewHoldsRange(raws: seq<string>, raw: string, r: RawRecord)
    requires r.startLine == r.endLine == |raws| + 1 && LinesIn(r) == InputLine(RStrip(raw))
    requires r.startOffset == TotalLength(raws) && r.endOffset == TotalLength(raws) + |ChopNewline(raw)|
    ensures HoldsItsRange(r, raws + [raw])
  {
    hide LinesIn, InputLine;
    NewLinePosition(raws, raw);
    LinesBetweenPush(raws, raw, |raws|);
    assert LinesBetween(raws, |raws|, |raws|) == [];
  }

  lemma OpenSourced(rs: seq<RawRecord>, raws: seq<string>, raw: string, r: RawRecord)
    requires Sourced(rs, raws) && HoldsItsRange(r, raws + [raw]) && r.startLine == r.endLine == |raws| + 1
    ensures Sourced(rs + [r], raws + [raw])
  {
    hide HoldsItsRange, LinesBetween;
    var after, more := rs + [r], raws + [raw];
    forall i | 0 <= i < |rs|
      ensures HoldsItsRange(after[i], more) && BlankBefore(after, more, i)
    {
      GapStays(rs, after, raws, raw, i);
      RangeStays(rs[i], raws, raw);
    }
    LinesBetweenStay(raws, raw, EndBefore(rs, |rs|), |raws|);
    NothingBehind(raws, raw);
  }

  /** One line, however the patterns see it. */
  lemma SeenSourced(a: Asm, raws: seq<string>, raw: string, seen: Seen, ln: Line)
    requires Sound(a) && Sourced(Records(a), raws) && IsLine(ln, raws, raw)
    requires var content := RStrip(raw);
      && HeaderText(content, seen) && (seen.pageDate ==> seen.anchor != Some(PageHeader))
      && '\n' !in content && '\n' !in OpenedBy(content, seen, ln).rawText
      && Kept(content, seen) == InputLine(content)
    ensures Sourced(Records(ConsumeSeen(a, RStrip(raw), seen, ln)), raws + [raw])
  {
    hide Sourced, LinesIn, InputLine, RStrip;
    var content := RStrip(raw);
    OneLineOneStep(a, content, seen, ln);
    var rs := Records(a);
    if Joins(a, content, seen) {
      ExtendSourced(rs, raws, raw, content, ln);
    } else if content == "" {
      SkipSourced(rs, raws, raw);
    } else {
      NewHoldsLine(content, seen, ln);
      NewHoldsRange(raws, raw, OpenedBy(content, seen, ln));
      OpenSourced(rs, raws, raw, OpenedBy(content, seen, ln));
    }
  }

  lemma LineSourced(a: Asm, raws: seq<string>, raw: string)
    requires Sound(a) && Sourced(Records(a), raws) && Physical(raw)
    ensures Sourced(Records(Consume(a, LineAt(raw, |raws| + 1, TotalLength(raws)))), raws + [raw])
  {
    hide Sourced, ConsumeSeen, Look, RStrip, ChopNewline, Kept, InputLine, Physical, HeaderText, Strip, LStripFormFeed;
    var ln := LineAt(raw, |raws| + 1, TotalLength(raws));
    LineFacts(raw, |raws| + 1, TotalLength(raws));
    LookIsSound(raw);
    LookKeeps(RStrip(raw));
    SeenSourced(a, raws, raw, Look(RStrip(raw)), ln);
  }

  /** The state after a whole stream. */
  function ReadAll(raws: seq<string>): Asm {
    Feed(Consumer(), FRESH, LinesOf(raws, 0, 0))
  }

  lemma FeedOneMore(consume: (Asm, Line) -> Asm, a: Asm, raws: seq<string>, raw: string)
    ensures Feed(consume, a, LinesOf(raws + [raw], 0, 0))
         == consume(Feed(consume, a, LinesOf(raws, 0, 0)), LineAt(raw, |raws| + 1, TotalLength(raws)))
  {
    FeedAppend(consume, a, raws, [raw], 0, 0);
    FeedFirst(consume, Feed(consume, a, LinesOf(raws, 0, 0)), [raw], |raws|, TotalLength(raws));
    assert [raw][1..] == [];
  }

  lemma ReadOneMore(raws: seq<string>, raw: string)
    ensures ReadAll(raws + [raw]) == Consume(ReadAll(raws), LineAt(raw, |raws| + 1, TotalLength(raws)))
  {
    hide Consume, Feed, LinesOf, LineAt;
    FeedOneMore(Consumer(), FRESH, raws, raw);
  }

  lemma {:induction false} StreamSourced(raws: seq<string>)
    requires AllPhysical(raws)
    ensures Sourced(Records(ReadAll(raws)), raws)
  {
    hide Sound, Consume, Feed;
    if raws == [] {
      NothingSourced();
    } else {
      var init, raw := raws[..|raws| - 1], raws[|raws| - 1];
      assert raws == init + [raw];
      StreamSourced(init);
      StreamSound(init);
      ReadOneMore(init, raw);
      LineSourced(ReadAll(init), init, raw);
    }
  }

  lemma NothingSourced()
    ensures Sourced(Records(ReadAll([])), [])
  {
  }

  /**
   * For every input: each record holds exactly the non-blank lines of its own line range
   * and spans their offsets, and no non-blank line lies outside all ranges.
   */
  lemma RecordsHoldTheirRanges(raws: seq<string>)
    requires AllPhysical(raws)
    ensures Sourced(Assemble(raws), raws)
  {
    hide Sourced;
    StreamSourced(raws);
    StreamSound(raws);
    FlushShowsAll(ReadAll(raws));
  }
}
