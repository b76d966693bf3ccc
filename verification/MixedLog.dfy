/**
 * Whole logs of every kind of record: TB_LOG records, SAS messages, auto variables,
 * sources, status lines, loose text and page breaks, written block by block in any
 * order, are assembled block by block.
 */
module MixedLog {
  import opened Prelude
  import opened Text
  import opened Recognisers
  import opened Assembler
  import opened AssemblerLaws
  import opened RoundTrip
  import opened LinePatterns

  // ---- blocks --------------------------------------------------------------

  datatype Block =
    | TbBlock(entry: Entry)
    | TextBlock(kind: Anchor, head: string, next: seq<string>)
    | LooseBlock(text: string)
    | PageBlock(page: Page, date: Option<Date>)

  function BlockLines(b: Block): (lines: seq<string>)
    requires b.TbBlock? ==> ValidEntry(b.entry)
    ensures |lines| > 0
  {
    match b
    case TbBlock(e) => Printed(e.fields, e.wraps)
    case TextBlock(_, head, next) => [head] + next
    case LooseBlock(text) => [text]
    case PageBlock(page, date) =>
      [page.pad + Title(page)] + (if date.None? then [] else [PrintDate(date.value)])
  }

  function KindOf(b: Block): Anchor {
    match b
    case TbBlock(_) => TbLog
    case TextBlock(kind, _, _) => kind
    case LooseBlock(_) => RawUnknown
    case PageBlock(_, _) => PageHeader
  }

  /** The lines of the block; a page header without its padding. */
  function BlockText(b: Block): string
    requires b.TbBlock? ==> ValidEntry(b.entry)
  {
    match b
    case PageBlock(page, date) => if date.None? then Title(page) else Title(page) + "\n" + PrintDate(date.value)
    case _ => Join(BlockLines(b), "\n")
  }

  /** May these lines follow in a record of this kind? */
  ghost predicate NextLines(kind: Anchor, next: seq<string>) {
    && (forall i :: 0 <= i < |next| ==> Solid(next[i]))
    && match kind
       case SasMessage => forall i :: 0 <= i < |next| ==> FreeText(next[i])
       case SasAutovar => forall i :: 0 <= i < |next| ==> FreeText(next[i])
       case SasSource => forall i :: 0 <= i < |next| ==> SourceNext(next[i])
       case _ => next == []
  }

  ghost predicate BlockOk(b: Block) {
    match b
    case TbBlock(e) => ValidEntry(e) && !HeaderAlone(e.fields, e.wraps)
    case TextBlock(kind, head, next) => kind != TbLog && Head(kind, head) && Solid(head) && NextLines(kind, next)
    case LooseBlock(text) => FreeText(text) && Solid(text)
    case PageBlock(page, date) => PageOk(page) && (date.Some? ==> DateOk(date.value))
  }

  /**
   * Loose text would join an open message, and a wrapped one an open TB_LOG record; a
   * line like a date would join a page header without one.
   */
  ghost predicate Follows(prev: Block, b: Block)
    requires BlockOk(b)
  {
    && (b.LooseBlock? ==> KindOf(prev) != SasMessage && KindOf(prev) != SasAutovar)
    && (b.LooseBlock? && prev.TbBlock? ==> LStrip(b.text)[0] != '"' && LStrip(b.text)[0] != '-')
    && (prev.PageBlock? && prev.date.None? && !b.PageBlock? ==> NotDated(BlockLines(b)[0]))
  }

  // ---- one line ------------------------------------------------------------

  /** What a printed line does: it joins the last record or opens one. */
  ghost predicate StepOn(a: Asm, b: Asm, line: string, ln: Line) {
    && Sound(b)
    && (Joins(a, line, Look(line)) ==> |Records(a)| > 0 && Records(b) == ExtendLast(Records(a), line, ln))
    && (!Joins(a, line, Look(line)) ==> Records(b) == Records(a) + [OpenedBy(line, Look(line), ln)])
    && (b.pageDatePending <==> IsPageHeader(line))
  }

  ghost predicate Steps(consume: (Asm, Line) -> Asm) {
    forall a, line, number, offset :: Sound(a) && Solid(line) ==>
      StepOn(a, consume(a, LineAt(line + "\n", number, offset)), line, LineAt(line + "\n", number, offset))
  }

  lemma PendingAfter(a: Asm, content: string, seen: Seen, ln: Line)
    requires content != "" && Sound(a) && (seen.pageDate ==> seen.anchor != Some(PageHeader))
    ensures ConsumeSeen(a, content, seen, ln).pageDatePending <==> seen.anchor == Some(PageHeader)
  {
  }

  lemma HeaderAnchor(line: string)
    ensures Look(line).anchor == Some(PageHeader) <==> IsPageHeader(line)
  {
  }

  lemma SolidKept(line: string)
    requires Solid(line)
    ensures RStrip(line) == line
  {
  }

  lemma LineSteps(a: Asm, line: string, number: int, offset: int)
    requires Sound(a) && Solid(line)
    ensures StepOn(a, Consume(a, LineAt(line + "\n", number, offset)), line, LineAt(line + "\n", number, offset))
  {
    hide Look, ConsumeSeen, IsPageHeader, Joins, OpenedBy, LineAt, RStrip;
    var ln := LineAt(line + "\n", number, offset);
    LineContent(line, number, offset);
    SolidKept(line);
    LookIsSound(line);
    OneLineOneStep(a, line, Look(line), ln);
    PendingAfter(a, line, Look(line), ln);
    HeaderAnchor(line);
    JoinsSome(a, line, Look(line));
  }

  lemma JoinsSome(a: Asm, content: string, seen: Seen)
    requires Sound(a)
    ensures Joins(a, content, seen) ==> |Records(a)| > 0
  {
  }

  lemma ConsumerSteps()
    ensures Steps(Consumer())
  {
    hide Consume, StepOn, LineAt, Sound, Solid;
    forall a, line, number, offset | Sound(a) && Solid(line)
      ensures StepOn(a, Consumer()(a, LineAt(line + "\n", number, offset)), line, LineAt(line + "\n", number, offset))
    {
      LineSteps(a, line, number, offset);
    }
  }

  /**
   * A text line joins an open TB_LOG record exactly when the record has an open quote or
   * a dash at its end, or the line starts with a quote or a dash behind its spaces.
   */
  lemma TbLogJoinsExactly(a: Asm, line: string)
    requires Sound(a) && a.current.Some? && a.current.value.anchor == TbLog
    requires Solid(line) && !IsPageHeader(line)
    ensures var text, rest := a.current.value.rawText, LStrip(line);
      Joins(a, line, Look(line)) <==>
        || Quotes(text) % 2 == 1
        || (RStrip(text) != "" && RStrip(text)[|RStrip(text)| - 1] == '-')
        || (rest != "" && (rest[0] == '"' || rest[0] == '-'))
  {
    hide DetectAnchor, IsNumberedContinuation, IsPageDate;
    HeaderAnchor(line);
    var pad := LStripSuffix(line);
    assert LStrip(line) == "" ==> line == pad;
  }

  // ---- the records as kinds and texts --------------------------------------

  type Entries = seq<(Anchor, string)>

  function Shown(rs: seq<RawRecord>): Entries {
    seq(|rs|, i requires 0 <= i < |rs| => (rs[i].anchor, rs[i].rawText))
  }

  /** The records so far are `done` and a last one of this kind and text. */
  ghost predicate At(a: Asm, done: Entries, kind: Anchor, text: string) {
    Sound(a) && Shown(Records(a)) == done + [(kind, text)]
  }

  /** The last record is open exactly if its kind stays open. */
  lemma LastIsOpen(a: Asm, done: Entries, kind: Anchor, text: string)
    requires At(a, done, kind, text)
    ensures a.current.Some? <==> StaysOpen(kind)
    ensures a.current.Some? ==> a.current.value.anchor == kind && a.current.value.rawText == text
  {
    var rs := Records(a);
    assert Shown(rs)[|rs| - 1] == (kind, text);
    assert rs[|rs| - 1].anchor == kind;
  }

  /** May the first of `next` come behind a record with this text? */
  ghost predicate GoesOn(kind: Anchor, text: string, next: seq<string>) {
    match kind
    case TbLog => next == [] || (EndsWith(text, '-') && LinesOk(next) && !IsPageHeader(next[|next| - 1]))
    case PageHeader => next == [] || (|next| == 1 && Solid(next[0]) && IsPageDate(next[0]))
    case _ => NextLines(kind, next)
  }

  lemma GoesOnSolid(kind: Anchor, text: string, next: seq<string>)
    requires GoesOn(kind, text, next) && next != []
    ensures Solid(next[0]) && !IsPageHeader(next[0])
  {
    match kind {
      case TbLog =>
        assert LineOk(next[0], |next| == 1);
        LineIsNext(next[0], |next| == 1);
      case PageHeader => PageDateIsNoHeader(next[0]);
      case SasSource => SourceNextSeen(next[0]);
      case SasMessage => FreeIsNoHeader(next[0]);
      case SasAutovar => FreeIsNoHeader(next[0]);
      case _ =>
    }
  }

  lemma GoesOnTail(kind: Anchor, text: string, next: seq<string>)
    requires GoesOn(kind, text, next) && next != []
    ensures GoesOn(kind, text + "\n" + next[0], next[1..])
  {
    if kind == TbLog && |next| > 1 {
      assert LineOk(next[0], false);
      LinesOkTail(next);
      assert EndsWith(text + "\n" + next[0], '-');
    }
  }

  lemma GoesOnJoins(a: Asm, done: Entries, kind: Anchor, text: string, next: seq<string>)
    requires At(a, done, kind, text) && GoesOn(kind, text, next) && next != []
    requires kind == PageHeader ==> a.pageDatePending
    ensures Joins(a, next[0], Look(next[0]))
  {
    LastIsOpen(a, done, kind, text);
    GoesOnSolid(kind, text, next);
    HeaderAnchor(next[0]);
    JoinsNext(a.current, kind, text, next);
  }

  lemma JoinsNext(current: Option<RawRecord>, kind: Anchor, text: string, next: seq<string>)
    requires current.Some? <==> StaysOpen(kind)
    requires current.Some? ==> current.value.anchor == kind && current.value.rawText == text
    requires GoesOn(kind, text, next) && next != []
    ensures if kind == PageHeader then Look(next[0]).pageDate else
              current.Some? && Continues(current.value, next[0], Look(next[0]))
  {
    hide DetectAnchor, IsPageDate, IsNumberedContinuation, IsPageHeader;
    match kind {
      case TbLog => DashGoesOn(text, next[0]);
      case SasSource => SourceNextSeen(next[0]);
      case SasMessage => FreeSeen(next[0]);
      case SasAutovar => FreeSeen(next[0]);
      case _ =>
    }
  }

  lemma DashGoesOn(text: string, line: string)
    requires EndsWith(text, '-')
    ensures IsTbLogContinuation(text, line)
  {
    assert RStrip(text) == text;
  }

  lemma ExtendShown(rs: seq<RawRecord>, done: Entries, kind: Anchor, text: string, line: string, ln: Line)
    requires |rs| > 0 && Shown(rs) == done + [(kind, text)]
    ensures Shown(ExtendLast(rs, line, ln)) == done + [(kind, text + "\n" + line)]
  {
    var after := ExtendLast(rs, line, ln);
    assert |done| == |rs| - 1;
    assert Shown(rs)[|rs| - 1] == (kind, text);
    forall i | 0 <= i < |rs|
      ensures Shown(after)[i] == (done + [(kind, text + "\n" + line)])[i]
    {
      assert Shown(rs)[i] == (done + [(kind, text)])[i];
    }
  }

  /** One more line of a block joins its record. */
  lemma NextJoins(
    consume: (Asm, Line) -> Asm, a: Asm, done: Entries, kind: Anchor, text: string, next: seq<string>,
    number: int, offset: int)
    requires Steps(consume) && At(a, done, kind, text) && GoesOn(kind, text, next) && next != []
    requires kind == PageHeader ==> a.pageDatePending
    ensures var b := consume(a, LineAt(next[0] + "\n", number, offset));
      At(b, done, kind, text + "\n" + next[0]) && !b.pageDatePending
    ensures GoesOn(kind, text + "\n" + next[0], next[1..])
    ensures kind == PageHeader ==> next[1..] == []
  {
    hide GoesOn, Joins, Solid, IsPageHeader, Sound, Records, Shown, ExtendLast;
    var line := next[0];
    GoesOnSolid(kind, text, next);
    GoesOnJoins(a, done, kind, text, next);
    var ln := LineAt(line + "\n", number, offset);
    assert StepOn(a, consume(a, ln), line, ln);
    ExtendShown(Records(a), done, kind, text, line, ln);
    GoesOnTail(kind, text, next);
    if kind == PageHeader {
      PageEnds(kind, text, next);
    }
  }

  /** The further lines of a block all join its record. */
  lemma {:induction false} NextReads(
    consume: (Asm, Line) -> Asm, a: Asm, done: Entries, kind: Anchor, text: string, next: seq<string>,
    number: int, offset: int)
    requires Steps(consume) && At(a, done, kind, text) && GoesOn(kind, text, next)
    requires kind == PageHeader && next != [] ==> a.pageDatePending
    ensures var b := Feed(consume, a, LinesOf(Terminated(next), number, offset));
      if next == [] then b == a
      else At(b, done, kind, text + "\n" + Join(next, "\n")) && !b.pageDatePending
    decreases |next|
  {
    hide Steps, At, GoesOn, Join, LineAt;
    if next != [] {
      var line := next[0];
      NextJoins(consume, a, done, kind, text, next, number + 1, offset);
      FeedFirst(consume, a, Terminated(next), number, offset);
      var b := consume(a, LineAt(line + "\n", number + 1, offset));
      NextReads(consume, b, done, kind, text + "\n" + line, next[1..], number + 1, offset + |line + "\n"|);
      JoinedText(text, next);
    }
  }

  lemma PageEnds(kind: Anchor, text: string, next: seq<string>)
    requires GoesOn(kind, text, next) && next != [] && kind == PageHeader
    ensures next[1..] == []
  {
  }

  lemma JoinedText(text: string, next: seq<string>)
    requires next != []
    ensures text + "\n" + Join(next, "\n") ==
      if next[1..] == [] then text + "\n" + next[0] else text + "\n" + next[0] + "\n" + Join(next[1..], "\n")
  {
    assert next == [next[0]] + next[1..];
    if next[1..] != [] {
      JoinCons(next[0], next[1..], "\n");
      var tail := Join(next[1..], "\n");
      assert text + "\n" + (next[0] + "\n" + tail) == text + "\n" + next[0] + "\n" + tail;
    }
  }

  // ---- one block -----------------------------------------------------------

  /** The records so far are `all`, and the last one is that of `prev`. */
  ghost predicate Behind(a: Asm, all: Entries, prev: Option<Block>) {
    && Sound(a) && Shown(Records(a)) == all
    && match prev
       case None => all == [] && !a.pageDatePending
       case Some(p) =>
         && BlockOk(p) && all != [] && all[|all| - 1] == (KindOf(p), BlockText(p))
         && (a.pageDatePending <==> p.PageBlock? && p.date.None?)
  }

  ghost predicate MayFollow(prev: Option<Block>, b: Block)
    requires BlockOk(b)
  {
    prev.Some? ==> Follows(prev.value, b)
  }

  /** How the first line of a block is seen. */
  function FirstAnchor(b: Block): Option<Anchor> {
    if b.LooseBlock? then None else Some(KindOf(b))
  }

  lemma FirstSeen(b: Block)
    requires BlockOk(b)
    ensures var line := BlockLines(b)[0];
      && Solid(line) && Look(line).anchor == FirstAnchor(b) && KindOf(b) != SasSourceCont
      && (!b.PageBlock? ==> !Look(line).numbered)
      && (!b.PageBlock? && !b.LooseBlock? ==> LStrip(line) != "" && LStrip(line)[0] != '"' && LStrip(line)[0] != '-')
  {
    hide DetectAnchor, IsNumberedContinuation, IsPageDate, Printed, Head;
    var line := BlockLines(b)[0];
    match b {
      case TbBlock(e) =>
        PrintedLines(e.fields, e.wraps);
        assert LineOk(line, |BlockLines(b)| == 1);
        TbHead(line);
      case TextBlock(kind, head, _) =>
        HeadSeen(kind, head);
        HeadKinds(kind, head);
      case LooseBlock(text) =>
        FreeSeen(text);
        assert DigitSpan(text) == 0;
        FreeNotNumbered(text);
      case PageBlock(page, _) =>
        PageSeen(page);
        assert line[|line| - 1] == 'S';
    }
  }

  lemma HeadKinds(kind: Anchor, line: string)
    requires Head(kind, line)
    ensures kind != SasSourceCont && kind != PageHeader && kind != RawUnknown
  {
  }

  lemma TbHead(line: string)
    requires "TB_LOG:" <= line
    ensures Head(TbLog, line) && SeenAs(TbLog, line)
  {
    TbLogSeen(line);
  }

  lemma FreeNotNumbered(text: string)
    requires FreeText(text)
    ensures !IsNumberedContinuation(text)
  {
  }

  /** A closed record lets the first line of the next block open its own. */
  lemma NotContinued(prev: Block, b: Block, r: RawRecord)
    requires BlockOk(prev) && BlockOk(b) && Follows(prev, b) && !b.PageBlock?
    requires r.anchor == KindOf(prev) && r.rawText == BlockText(prev) && StaysOpen(r.anchor)
    ensures !Continues(r, BlockLines(b)[0], Look(BlockLines(b)[0]))
  {
    hide DetectAnchor, IsNumberedContinuation, IsPageDate, Printed, Head;
    FirstSeen(b);
    if prev.TbBlock? {
      PrintedLines(prev.entry.fields, prev.entry.wraps);
      PrintedEnd(prev.entry.fields, prev.entry.wraps);
    }
  }

  /** What is open behind a block is the block's record, and a date is only awaited behind a bare page header. */
  lemma OpenBehind(a: Asm, all: Entries, prev: Option<Block>)
    requires Behind(a, all, prev)
    ensures a.current.Some? ==> prev.Some? && StaysOpen(a.current.value.anchor)
    ensures a.current.Some? ==> BlockOk(prev.value) && a.current.value.anchor == KindOf(prev.value) &&
                                a.current.value.rawText == BlockText(prev.value)
    ensures a.pageDatePending ==> prev.Some? && prev.value.PageBlock? && prev.value.date.None?
  {
    hide Head, NextLines, WellFormed, BlockText;
    if prev.Some? {
      var p := prev.value;
      assert all == all[..|all| - 1] + [(KindOf(p), BlockText(p))];
      LastIsOpen(a, all[..|all| - 1], KindOf(p), BlockText(p));
    } else {
      assert |Shown(Records(a))| == |Records(a)|;
    }
  }

  lemma NotJoined(a: Asm, content: string, seen: Seen)
    requires content != "" && (a.pageDatePending ==> !seen.pageDate)
    requires seen.anchor == Some(PageHeader) || (a.current.Some? ==> !Continues(a.current.value, content, seen))
    ensures !Joins(a, content, seen)
  {
  }

  lemma FirstOpens(a: Asm, all: Entries, prev: Option<Block>, b: Block)
    requires Behind(a, all, prev) && BlockOk(b) && MayFollow(prev, b)
    ensures !Joins(a, BlockLines(b)[0], Look(BlockLines(b)[0]))
  {
    hide Behind, ValidEntry, HeaderAlone, Head, NextLines, Follows, BlockLines, BlockText, Look, Joins, Continues;
    var line := BlockLines(b)[0];
    OpenBehind(a, all, prev);
    FirstSeen(b);
    if a.pageDatePending {
      NoDateFirst(prev, b);
    }
    if a.current.Some? && !b.PageBlock? {
      NotContinued(prev.value, b, a.current.value);
    }
    NotJoined(a, line, Look(line));
  }

  lemma NoDateFirst(prev: Option<Block>, b: Block)
    requires BlockOk(b) && MayFollow(prev, b)
    requires prev.Some? && prev.value.PageBlock? && prev.value.date.None?
    ensures !Look(BlockLines(b)[0]).pageDate
  {
    var line := BlockLines(b)[0];
    if b.PageBlock? {
      PageSeen(b.page);
      HeaderAnchor(line);
      if IsPageDate(line) {
        PageDateIsNoHeader(line);
      }
    } else {
      NotDatedIsNoDate(line);
    }
  }

  /** The text that the first line of a block gives its record. */
  function FirstText(b: Block): string
    requires b.TbBlock? ==> ValidEntry(b.entry)
  {
    if b.PageBlock? then Title(b.page) else BlockLines(b)[0]
  }

  lemma FirstRecord(b: Block, ln: Line)
    requires BlockOk(b)
    ensures var line := BlockLines(b)[0];
      OpenedBy(line, Look(line), ln).anchor == KindOf(b) && OpenedBy(line, Look(line), ln).rawText == FirstText(b)
  {
    FirstSeen(b);
    if b.PageBlock? {
      PageSeen(b.page);
      StripFormFeed(BlockLines(b)[0]);
    }
  }

  /** The lines behind the first go on with its record. */
  lemma RestGoesOn(b: Block)
    requires BlockOk(b)
    ensures GoesOn(KindOf(b), FirstText(b), BlockLines(b)[1..])
    ensures b.PageBlock? ==> (BlockLines(b)[1..] == [] <==> b.date.None?)
  {
    match b {
      case TbBlock(e) =>
        PrintedLines(e.fields, e.wraps);
        PrintedLast(e.fields, e.wraps);
        var lines := BlockLines(b);
        if |lines| > 1 {
          assert LineOk(lines[0], false);
          LinesOkTail(lines);
        }
      case TextBlock(_, _, next) => assert BlockLines(b)[1..] == next;
      case LooseBlock(_) => assert BlockLines(b)[1..] == [];
      case PageBlock(_, date) =>
        if date.Some? {
          DateMatches(date.value);
          assert BlockLines(b)[1..] == [PrintDate(date.value)];
        }
    }
  }

  lemma WholeText(b: Block)
    requires BlockOk(b)
    ensures var next := BlockLines(b)[1..];
      BlockText(b) == if next == [] then FirstText(b) else FirstText(b) + "\n" + Join(next, "\n")
  {
    var lines := BlockLines(b);
    assert lines == [lines[0]] + lines[1..];
    if lines[1..] != [] {
      JoinCons(lines[0], lines[1..], "\n");
    }
  }

  lemma PushShown(rs: seq<RawRecord>, r: RawRecord)
    ensures Shown(rs + [r]) == Shown(rs) + [(r.anchor, r.rawText)]
  {
  }

  /** The first line opens the record of the block. */
  lemma FirstReads(
    consume: (Asm, Line) -> Asm, a: Asm, all: Entries, prev: Option<Block>, b: Block, number: int, offset: int)
    requires Steps(consume) && Behind(a, all, prev) && BlockOk(b) && MayFollow(prev, b)
    ensures var c := consume(a, LineAt(BlockLines(b)[0] + "\n", number, offset));
      At(c, all, KindOf(b), FirstText(b)) && (c.pageDatePending <==> b.PageBlock?)
  {
    hide ValidEntry, HeaderAlone, Head, NextLines, Follows, BlockLines, BlockText, Joins, Records, Shown, OpenedBy;
    hide Look, IsPageHeader, Sound, FirstText, PageOk, DateOk, FreeText, Title;
    var line := BlockLines(b)[0];
    var ln := LineAt(line + "\n", number, offset);
    FirstOpens(a, all, prev, b);
    FirstSeen(b);
    HeaderAnchor(line);
    FirstRecord(b, ln);
    assert StepOn(a, consume(a, ln), line, ln);
    PushShown(Records(a), OpenedBy(line, Look(line), ln));
    FirstIsHeader(b);
  }

  lemma FirstIsHeader(b: Block)
    requires BlockOk(b)
    ensures FirstAnchor(b) == Some(PageHeader) <==> b.PageBlock?
  {
    if b.TextBlock? {
      HeadKinds(b.kind, b.head);
    }
  }

  /** Reading a block adds its record, complete, behind those before. */
  lemma BlockReads(
    consume: (Asm, Line) -> Asm, a: Asm, all: Entries, prev: Option<Block>, b: Block, number: int, offset: int)
    requires Steps(consume) && Behind(a, all, prev) && BlockOk(b) && MayFollow(prev, b)
    ensures var c := Feed(consume, a, LinesOf(Terminated(BlockLines(b)), number, offset));
      Behind(c, all + [(KindOf(b), BlockText(b))], Some(b))
  {
    hide Steps, ValidEntry, HeaderAlone, Head, NextLines, Follows, BlockLines, BlockText, FirstText, GoesOn, Shown;
    hide Sound, Records, PageOk, DateOk, FreeText, Solid, LineAt, Title;
    var lines := BlockLines(b);
    FeedFirst(consume, a, Terminated(lines), number, offset);
    FirstReads(consume, a, all, prev, b, number + 1, offset);
    var c := consume(a, LineAt(lines[0] + "\n", number + 1, offset));
    RestGoesOn(b);
    WholeText(b);
    KindIsPage(b);
    NextReads(consume, c, all, KindOf(b), FirstText(b), lines[1..], number + 1, offset + |lines[0] + "\n"|);
  }

  lemma KindIsPage(b: Block)
    requires BlockOk(b)
    ensures KindOf(b) == PageHeader <==> b.PageBlock?
  {
    if b.TextBlock? {
      HeadKinds(b.kind, b.head);
    }
  }

  // ---- whole logs ----------------------------------------------------------

  ghost predicate AllOk(log: seq<Block>) {
    forall i :: 0 <= i < |log| ==> BlockOk(log[i])
  }

  /** Every block may stand behind the one before it. */
  ghost predicate WellMixed(prev: Option<Block>, log: seq<Block>)
    requires AllOk(log)
    decreases |log|
  {
    log == [] || (MayFollow(prev, log[0]) && WellMixed(Some(log[0]), log[1..]))
  }

  ghost function MixedLines(log: seq<Block>): seq<string>
    requires AllOk(log)
  {
    if log == [] then [] else Terminated(BlockLines(log[0])) + MixedLines(log[1..])
  }

  ghost function MixedEntries(log: seq<Block>): Entries
    requires AllOk(log)
  {
    if log == [] then [] else [(KindOf(log[0]), BlockText(log[0]))] + MixedEntries(log[1..])
  }

  /** Reading a block and more lines is reading the block, then the rest. */
  lemma BlockFirst(
    consume: (Asm, Line) -> Asm, a: Asm, all: Entries, prev: Option<Block>, b: Block, rest: seq<string>,
    number: int, offset: int)
    returns (c: Asm, nextNumber: int, nextOffset: int)
    requires Steps(consume) && Behind(a, all, prev) && BlockOk(b) && MayFollow(prev, b)
    ensures Behind(c, all + [(KindOf(b), BlockText(b))], Some(b))
    ensures Feed(consume, a, LinesOf(Terminated(BlockLines(b)) + rest, number, offset))
         == Feed(consume, c, LinesOf(rest, nextNumber, nextOffset))
  {
    hide Steps, Behind, ValidEntry, HeaderAlone, Head, NextLines, Follows, BlockLines, BlockText, Feed, LinesOf;
    var lines := Terminated(BlockLines(b));
    BlockReads(consume, a, all, prev, b, number, offset);
    c := Feed(consume, a, LinesOf(lines, number, offset));
    nextNumber, nextOffset := number + |lines|, offset + TotalLength(lines);
    FeedAppend(consume, a, lines, rest, number, offset);
  }

  lemma {:induction false} BlocksRead(
    consume: (Asm, Line) -> Asm, a: Asm, all: Entries, prev: Option<Block>, log: seq<Block>, number: int, offset: int)
    requires Steps(consume) && Behind(a, all, prev) && AllOk(log) && WellMixed(prev, log)
    ensures var b := Feed(consume, a, LinesOf(MixedLines(log), number, offset));
      Sound(b) && Shown(Records(b)) == all + MixedEntries(log)
    decreases |log|
  {
    hide Steps, Behind, ValidEntry, HeaderAlone, Head, NextLines, Follows, BlockLines, BlockText, Feed, LinesOf;
    hide Sound, Records, Shown, Terminated, PageOk, DateOk, FreeText, Solid;
    if log == [] {
      FeedNothing(consume, a, number, offset);
      BehindShows(a, all, prev);
      assert all + [] == all;
    } else {
      var entry := (KindOf(log[0]), BlockText(log[0]));
      var c, n, o := BlockFirst(consume, a, all, prev, log[0], MixedLines(log[1..]), number, offset);
      BlocksRead(consume, c, all + [entry], Some(log[0]), log[1..], n, o);
      assert all + ([entry] + MixedEntries(log[1..])) == all + [entry] + MixedEntries(log[1..]);
    }
  }

  lemma FeedNothing(consume: (Asm, Line) -> Asm, a: Asm, number: int, offset: int)
    ensures Feed(consume, a, LinesOf([], number, offset)) == a
  {
  }

  lemma BehindShows(a: Asm, all: Entries, prev: Option<Block>)
    requires Behind(a, all, prev)
    ensures Sound(a) && Shown(Records(a)) == all
  {
  }

  /**
   * Every well mixed log, of any kinds of blocks in any order, assembles to exactly one
   * record per block, of the block's kind and with its lines.
   */
  lemma MixedRoundTrip(log: seq<Block>)
    requires AllOk(log) && WellMixed(None, log)
    ensures Shown(Assemble(MixedLines(log))) == MixedEntries(log)
  {
    hide BlockOk, WellMixed, MixedLines, MixedEntries, Feed, LinesOf, Consumer;
    ConsumerSteps();
    assert Shown(Records(FRESH)) == [];
    BlocksRead(Consumer(), FRESH, [], None, log, 0, 0);
    FlushShowsAll(Feed(Consumer(), FRESH, LinesOf(MixedLines(log), 0, 0)));
    assert [] + MixedEntries(log) == MixedEntries(log);
  }
}
