/**
 * What the line patterns recognise, said by the characters of the lines: the first lines
 * of every kind of record, their continuation lines, page headers and page dates.
 */
module LinePatterns {
  import opened Prelude
  import opened Text
  import opened Recognisers

  // ---- the lines, by their characters --------------------------------------

  /** A printed line: something on it, no space at its end. */
  predicate Solid(line: string) {
    line != "" && !IsSpace(line[|line| - 1])
  }

  predicate MessageHead(line: string) {
    "NOTE:" <= line || "WARNING:" <= line || "ERROR:" <= line
  }

  predicate AutovarHead(line: string) {
    "_ERROR_=" <= line
  }

  /** `digits` digits, a space, then `mark`. */
  predicate Numbered(line: string, digits: nat, mark: string) {
    && 0 < digits < |line| && (forall i :: 0 <= i < digits ==> '0' <= line[i] <= '9')
    && line[digits] == ' ' && mark <= line[digits + 1..]
  }

  ghost predicate SourceHead(line: string) {
    exists digits: nat :: Numbered(line, digits, "+")
  }

  ghost predicate SourceNext(line: string) {
    "!+" <= line || exists digits: nat :: Numbered(line, digits, "!+")
  }

  /** Text that no pattern claims: an indented line that does not go on with a digit. */
  predicate FreeText(line: string) {
    line != "" && line[0] == ' ' && LStrip(line) != "" && !('0' <= LStrip(line)[0] <= '9')
  }

  predicate CheckpointHead(line: string) {
    "#Tiempo actual:" <= line || "#Desde el comienzo" <= line || "$Desde el anterior hito" <= line
  }

  predicate SleepHead(line: string) {
    "time_sleep:" <= line && |line| > 11 && '0' <= line[11] <= '9'
  }

  /** Any spelling of the key in capitals and small letters, then a colon or an equals sign. */
  predicate KeyedBy(line: string, key: string) {
    && |line| > |key| && (line[|key|] == ':' || line[|key|] == '=')
    && forall i :: 0 <= i < |key| ==>
         line[i] == key[i] || ('A' <= line[i] <= 'Z' && line[i] as int + 32 == key[i] as int)
  }

  predicate StatusHead(line: string) {
    || KeyedBy(line, "salida") || KeyedBy(line, "generated_out") || KeyedBy(line, "out_status")
    || KeyedBy(line, "load_status") || KeyedBy(line, "hora leida para salida") || KeyedBy(line, "status")
    || KeyedBy(line, "cod_err") || KeyedBy(line, "date_etl") || KeyedBy(line, "num_date_ref_yyyymmdd")
  }

  /** The first line of a block of this kind. */
  ghost predicate Head(kind: Anchor, line: string) {
    match kind
    case TbLog => "TB_LOG:" <= line
    case SasMessage => MessageHead(line)
    case SasAutovar => AutovarHead(line)
    case SasSource => SourceHead(line)
    case Checkpoint => CheckpointHead(line)
    case TimeSleep => SleepHead(line)
    case CallDmf => "CALL_DMF:" <= line
    case FrameworkStatus => StatusHead(line)
    case _ => false
  }

  // ---- what the patterns see -----------------------------------------------

  lemma LetterIsNoHeader(line: string)
    requires line != "" && !IsSpace(line[0]) && !IsDigit(line[0])
    ensures !IsPageHeader(line) && !IsSourceNew(line) && !IsNumberedContinuation(line)
  {
    assert LStrip(line) == line;
  }

  lemma DigitsSpan(line: string, digits: nat)
    requires digits < |line| && (forall i :: 0 <= i < digits ==> IsDigit(line[i])) && !IsDigit(line[digits])
    ensures DigitSpan(line) == digits
  {
    var n := DigitSpan(line);
    assert forall i :: 0 <= i < n ==> IsDigit(line[i]);
  }

  lemma NumberedSpan(line: string, digits: nat, mark: string)
    requires Numbered(line, digits, mark) && mark != "" && !IsSpace(mark[0])
    ensures DigitSpan(line) == digits && mark <= LStrip(line[digits..])
    ensures !IsSpace(line[0])
  {
    DigitsSpan(line, digits);
    var rest := line[digits..];
    assert rest[0] == ' ' && rest[1..] == line[digits + 1..];
    assert rest[1..][0] == mark[0];
    assert LStrip(rest) == LStrip(rest[1..]) == rest[1..];
  }

  lemma SourceSeen(line: string)
    requires SourceHead(line)
    ensures DetectAnchor(line) == Some(SasSource) && !IsNumberedContinuation(line)
  {
    var digits: nat :| Numbered(line, digits, "+");
    NumberedSpan(line, digits, "+");
    assert LStrip(line) == line;
    var rest := line[digits..];
    assert LStrip(rest)[0] == '+';
    if IsPageHeader(line) {
      var before, after := StripParts(rest);
      NumberedIsNoHeader(rest);
    }
    assert IsDigit(line[0]);
  }

  /** Behind the number stands a plus or an exclamation mark, not the page title. */
  lemma NumberedIsNoHeader(rest: string)
    requires LStrip(rest) != "" && LStrip(rest)[0] != 'S'
    ensures Strip(rest) != "Sistema SAS"
  {
    var t := LStrip(rest);
    var pad := RStripPrefix(t);
    assert Strip(rest) != "" ==> Strip(rest)[0] == t[0];
  }

  lemma SourceNextSeen(line: string)
    requires SourceNext(line)
    ensures !IsPageHeader(line)
    ensures DetectAnchor(line) == Some(SasSourceCont) || IsNumberedContinuation(line)
  {
    if "!+" <= line {
      LetterIsNoHeader(line);
    } else {
      var digits: nat :| Numbered(line, digits, "!+");
      NumberedSpan(line, digits, "!+");
      assert LStrip(line) == line;
      NumberedIsNoHeader(line[digits..]);
    }
  }

  lemma KeyedLower(line: string, key: string)
    requires KeyedBy(line, key) && forall i :: 0 <= i < |key| ==> !('A' <= key[i] <= 'Z')
    ensures key <= Lower(line) && IsStatusKey(line, key)
  {
    assert forall i :: 0 <= i < |key| ==> Lower(line)[i] == key[i];
    assert Lower(line)[..|key|] == key;
    var rest := line[|key|..];
    assert rest[0] == line[|key|];
    assert LStrip(rest) == rest;
  }

  lemma StatusSeen(line: string)
    requires StatusHead(line)
    ensures IsStatusLine(line)
    ensures line != "" && IsLetter(line[0]) && line[0] != 'T' && line[0] != 'W' && line[0] != 'E' && line[0] != 't'
    ensures !("NOTE:" <= line) && !("CALL_DMF:" <= line)
  {
    var keys := STATUS_KEYS;
    var k := StatusKeyOf(line);
    KeyedLower(line, keys[k]);
    assert IsStatusKey(line, keys[k]);
    StatusFirst(line, k);
  }

  lemma StatusKeyOf(line: string) returns (k: nat)
    requires StatusHead(line)
    ensures k < |STATUS_KEYS| && KeyedBy(line, STATUS_KEYS[k])
    ensures forall i :: 0 <= i < |STATUS_KEYS[k]| ==> !('A' <= STATUS_KEYS[k][i] <= 'Z')
  {
    if KeyedBy(line, "salida") { k := 0; }
    else if KeyedBy(line, "generated_out") { k := 1; }
    else if KeyedBy(line, "out_status") { k := 2; }
    else if KeyedBy(line, "load_status") { k := 3; }
    else if KeyedBy(line, "hora leida para salida") { k := 4; }
    else if KeyedBy(line, "status") { k := 5; }
    else if KeyedBy(line, "cod_err") { k := 6; }
    else if KeyedBy(line, "date_etl") { k := 7; }
    else { k := 8; }
  }

  lemma StatusFirst(line: string, k: nat)
    requires k < |STATUS_KEYS| && KeyedBy(line, STATUS_KEYS[k])
    ensures line != "" && IsLetter(line[0]) && line[0] != 'T' && line[0] != 'W' && line[0] != 'E' && line[0] != 't'
    ensures !("NOTE:" <= line) && !("CALL_DMF:" <= line)
  {
    var key := STATUS_KEYS[k];
    assert line[0] == key[0] || line[0] as int + 32 == key[0] as int;
    assert line[1] == key[1] || line[1] as int + 32 == key[1] as int;
  }

  predicate NotFirst(c: char) {
    !IsSpace(c) && !IsDigit(c)
  }

  /** What every head gives: its kind, and a first character that continues no TB_LOG record. */
  ghost predicate SeenAs(kind: Anchor, line: string) {
    && DetectAnchor(line) == Some(kind) && !IsNumberedContinuation(line)
    && LStrip(line) == line && line != "" && line[0] != '"' && line[0] != '-'
  }

  lemma MessageSeen(line: string)
    requires MessageHead(line)
    ensures SeenAs(SasMessage, line)
  {
    LetterIsNoHeader(line);
  }

  lemma AutovarSeen(line: string)
    requires AutovarHead(line)
    ensures SeenAs(SasAutovar, line)
  {
    LetterIsNoHeader(line);
    NoStatusKey(line);
  }

  lemma CheckpointSeen(line: string)
    requires CheckpointHead(line)
    ensures SeenAs(Checkpoint, line)
  {
    LetterIsNoHeader(line);
  }

  lemma SleepSeen(line: string)
    requires SleepHead(line)
    ensures SeenAs(TimeSleep, line)
  {
    LetterIsNoHeader(line);
    assert LStrip(line[11..]) == line[11..];
  }

  lemma CallSeen(line: string)
    requires "CALL_DMF:" <= line
    ensures SeenAs(CallDmf, line)
  {
    LetterIsNoHeader(line);
  }

  lemma StatusHeadSeen(line: string)
    requires StatusHead(line)
    ensures SeenAs(FrameworkStatus, line)
  {
    hide StatusHead, IsStatusLine;
    StatusSeen(line);
    LetterIsNoHeader(line);
  }

  lemma TbLogSeen(line: string)
    requires "TB_LOG:" <= line
    ensures SeenAs(TbLog, line)
  {
    LetterIsNoHeader(line);
  }

  lemma SourceHeadSeen(line: string)
    requires SourceHead(line)
    ensures SeenAs(SasSource, line)
  {
    SourceSeen(line);
    var digits: nat :| Numbered(line, digits, "+");
    NumberedSpan(line, digits, "+");
  }

  lemma HeadSeen(kind: Anchor, line: string)
    requires Head(kind, line)
    ensures SeenAs(kind, line)
  {
    hide SeenAs, MessageHead, AutovarHead, SourceHead, CheckpointHead, SleepHead, StatusHead;
    match kind {
      case TbLog => TbLogSeen(line);
      case SasMessage => MessageSeen(line);
      case SasAutovar => AutovarSeen(line);
      case SasSource => SourceHeadSeen(line);
      case Checkpoint => CheckpointSeen(line);
      case TimeSleep => SleepSeen(line);
      case CallDmf => CallSeen(line);
      case FrameworkStatus => StatusHeadSeen(line);
      case _ =>
    }
  }

  /** Every status key starts with one of these letters, in either case. */
  lemma NoStatusKey(line: string)
    requires line != "" && line[0] !in "sgolhcdnSGOLHCDN"
    ensures !IsStatusLine(line)
  {
    forall k | 0 <= k < |STATUS_KEYS|
      ensures !IsStatusKey(line, STATUS_KEYS[k])
    {
      assert STATUS_KEYS[k][0] in "sgolhcdn";
      assert Lower(line)[0] == LowerChar(line[0]);
    }
  }

  lemma FreeSeen(line: string)
    requires FreeText(line)
    ensures DetectAnchor(line) == None
  {
    hide IsPageHeader, IsStatusLine, IsSourceNew;
    NoStatusKey(line);
    FreeIsNoHeader(line);
  }

  lemma FreeIsNoHeader(line: string)
    requires FreeText(line)
    ensures !IsPageHeader(line) && !IsSourceNew(line)
  {
  }

  // ---- page headers and dates ----------------------------------------------

  /** A number and the page title; `pad` and `gap` are spaces. */
  datatype Page = Page(pad: string, number: string, gap: string)

  predicate PageOk(p: Page) {
    && AllSpace(p.pad) && AllSpace(p.gap) && p.gap != ""
    && p.number != "" && forall i :: 0 <= i < |p.number| ==> '0' <= p.number[i] <= '9'
  }

  /** The header without its padding. */
  function Title(p: Page): string {
    p.number + (p.gap + "Sistema SAS")
  }

  lemma PageSeen(p: Page)
    requires PageOk(p)
    ensures DetectAnchor(p.pad + Title(p)) == Some(PageHeader)
    ensures Strip(p.pad + Title(p)) == Title(p)
  {
    var line, title := p.pad + Title(p), Title(p);
    LStripPad(p.pad, title);
    assert LStrip(title) == title;
    DigitsSpan(title, |p.number|);
    var rest := p.gap + "Sistema SAS";
    assert title[|p.number|..] == rest;
    assert rest + "" == rest;
    StripPadded(p.gap, "Sistema SAS", "");
    StripPadded(p.pad, title, "");
    assert p.pad + title + "" == line;
  }

  /** Letters up to `k`, and behind them and a comma no number after spaces. */
  predicate StopsAt(line: string, k: nat)
    requires k < |line|
  {
    && (forall i :: 0 <= i < k ==> IsLetter(line[i])) && !IsLetter(line[k])
    && var rest := if line[k] == ',' then line[k + 1..] else line[k..];
      rest == "" || !IsSpace(rest[0]) || LStrip(rest) == "" || !IsDigit(LStrip(rest)[0])
  }

  /** A page date goes on with a number behind its first word; this line does not. */
  ghost predicate NotDated(line: string) {
    exists k :: 0 <= k < |line| && StopsAt(line, k)
  }

  lemma {:induction false} LettersSpan(line: string, k: nat)
    requires k <= |line| && (forall i :: 0 <= i < k ==> IsLetter(line[i])) && (k < |line| ==> !IsLetter(line[k]))
    ensures LetterSpan(line) == k
  {
    if k > 0 {
      LettersSpan(line[1..], k - 1);
    }
  }

  lemma {:induction false} DigitSpanIs(line: string, k: nat)
    requires k <= |line| && (forall i :: 0 <= i < k ==> IsDigit(line[i])) && (k < |line| ==> !IsDigit(line[k]))
    ensures DigitSpan(line) == k
  {
    if k > 0 {
      DigitSpanIs(line[1..], k - 1);
    }
  }

  lemma NotDatedIsNoDate(line: string)
    requires NotDated(line)
    ensures !IsPageDate(line)
  {
    var k :| 0 <= k < |line| && StopsAt(line, k);
    LettersSpan(line, k);
    var rest := if line[k] == ',' then line[k + 1..] else line[k..];
    if rest != "" && IsSpace(rest[0]) {
      assert LStrip(rest) == "" || DigitSpan(LStrip(rest)) == 0;
    }
  }

  // ---- printed dates -------------------------------------------------------

  predicate AllLetters(s: string) {
    forall i :: 0 <= i < |s| ==> IsLetter(s[i])
  }

  predicate AllDigits(s: string) {
    forall i :: 0 <= i < |s| ==> IsDigit(s[i])
  }

  datatype Date = Date(
    weekday: string, day: string, month: string, year: string, hour: string, minute: string, second: string)

  predicate DateOk(d: Date) {
    && AllLetters(d.weekday) && |d.weekday| >= 3 && AllLetters(d.month) && |d.month| >= 1
    && AllDigits(d.day) && 1 <= |d.day| <= 2 && AllDigits(d.year) && |d.year| == 4
    && AllDigits(d.hour) && 1 <= |d.hour| <= 2 && AllDigits(d.minute) && |d.minute| == 2
    && AllDigits(d.second) && |d.second| == 2
  }

  function PrintClock(d: Date): string {
    d.hour + (":" + (d.minute + (":" + d.second)))
  }

  function PrintDate(d: Date): string {
    d.weekday + (", " + (d.day + (" de " + (d.month + (" de " + (d.year + (" " + PrintClock(d))))))))
  }

  lemma WordThen(word: string, rest: string)
    requires AllLetters(word) && (rest != "" ==> !IsLetter(rest[0]))
    ensures LetterSpan(word + rest) == |word| && (word + rest)[|word|..] == rest
  {
    LettersSpan(word + rest, |word|);
  }

  lemma NumberThen(number: string, rest: string)
    requires AllDigits(number) && (rest != "" ==> !IsDigit(rest[0]))
    ensures DigitSpan(number + rest) == |number| && (number + rest)[|number|..] == rest
  {
    DigitSpanIs(number + rest, |number|);
  }

  lemma SpaceThen(rest: string)
    requires rest != "" && !IsSpace(rest[0])
    ensures Spaces(" " + rest) == Some(rest)
  {
    assert (" " + rest)[1..] == rest;
    assert LStrip(rest) == rest;
  }

  lemma DeThen(rest: string)
    requires rest != "" && !IsSpace(rest[0])
    ensures Spaces(" de " + rest) == Some("de " + rest)
    ensures Literal("de " + rest, "de") == Some(" " + rest)
    ensures Spaces(" " + rest) == Some(rest)
  {
    assert " de " + rest == " " + ("de " + rest);
    SpaceThen("de " + rest);
    SpaceThen(rest);
    assert ("de " + rest)[2..] == " " + rest;
  }

  lemma ClockMatches(d: Date)
    requires DateOk(d)
    ensures DigitSpan(d.hour + (":" + (d.minute + (":" + d.second)))) == |d.hour|
    ensures Digits(PrintClock(d), 1, 2) == Some(":" + (d.minute + (":" + d.second)))
    ensures Literal(":" + (d.minute + (":" + d.second)), ":") == Some(d.minute + (":" + d.second))
    ensures Digits(d.minute + (":" + d.second), 2, 2) == Some(":" + d.second)
    ensures Literal(":" + d.second, ":") == Some(d.second) && DigitSpan(d.second) >= 2
    ensures PrintClock(d) != "" && !IsSpace(PrintClock(d)[0])
  {
    hide DigitSpan, LStrip;
    NumberThen(d.hour, ":" + (d.minute + (":" + d.second)));
    NumberThen(d.minute, ":" + d.second);
    DigitSpanIs(d.second, 2);
    assert IsDigit(d.hour[0]);
    assert (":" + (d.minute + (":" + d.second)))[1..] == d.minute + (":" + d.second);
    assert (":" + d.second)[1..] == d.second;
  }

  /** A text that starts with something visible. */
  predicate Visible(s: string) {
    s != "" && !IsSpace(s[0])
  }

  lemma WeekdayStep(weekday: string, day: string)
    requires AllLetters(weekday) && |weekday| >= 3
    ensures Letters(weekday + (", " + day), 3) == Some(", " + day)
    ensures Optionally(", " + day, ",") == Some(" " + day)
  {
    WordThen(weekday, ", " + day);
    assert (", " + day)[1..] == " " + day;
  }

  lemma DayStep(day: string, month: string)
    requires AllDigits(day) && 1 <= |day| <= 2 && Visible(month)
    ensures Visible(day + (" de " + month)) && Spaces(" " + (day + (" de " + month))) == Some(day + (" de " + month))
    ensures Digits(day + (" de " + month), 1, 2) == Some(" de " + month)
  {
    NumberThen(day, " de " + month);
    assert IsDigit(day[0]);
    SpaceThen(day + (" de " + month));
  }

  lemma MonthStep(month: string, year: string)
    requires AllLetters(month) && |month| >= 1
    ensures Visible(month + (" de " + year)) && Letters(month + (" de " + year), 1) == Some(" de " + year)
    ensures Optionally(" de " + year, ",") == Some(" de " + year)
  {
    WordThen(month, " de " + year);
    assert IsLetter(month[0]);
  }

  lemma YearStep(year: string, clock: string)
    requires AllDigits(year) && |year| == 4 && Visible(clock)
    ensures Visible(year + (" " + clock)) && Digits(year + (" " + clock), 4, 4) == Some(" " + clock)
    ensures Spaces(" " + clock) == Some(clock)
  {
    NumberThen(year, " " + clock);
    assert IsDigit(year[0]);
    SpaceThen(clock);
  }

  /** A printed date is recognised. */
  lemma DateMatches(d: Date)
    requires DateOk(d)
    ensures IsPageDate(PrintDate(d)) && Solid(PrintDate(d))
  {
    hide LStrip, DigitSpan, LetterSpan, Spaces, Digits, Letters, Optionally, Literal, IsPageDate, PrintClock;
    var clock := PrintClock(d);
    ClockMatches(d);
    YearStep(d.year, clock);
    var year := d.year + (" " + clock);
    DeThen(year);
    MonthStep(d.month, year);
    var month := d.month + (" de " + year);
    DeThen(month);
    DayStep(d.day, month);
    var day := d.day + (" de " + month);
    WeekdayStep(d.weekday, day);
    DateEnds(d);
    MatchSteps(PrintDate(d), ", " + day, day, " de " + month, month, " de " + year, year, " " + clock, clock, d);
  }

  lemma DateEnds(d: Date)
    requires DateOk(d)
    ensures Solid(PrintDate(d))
  {
    var s := PrintDate(d);
    assert s[|s| - 1] == d.second[1];
    assert IsDigit(d.second[1]);
  }

  /** The chain of matches, one after the other. */
  lemma MatchSteps(
    s: string, weekday: string, day: string, s1: string, month: string, s4: string, year: string, s8: string,
    clock: string, d: Date)
    requires Letters(s, 3) == Some(weekday) && Optionally(weekday, ",") == Some(" " + day)
    requires Spaces(" " + day) == Some(day) && Digits(day, 1, 2) == Some(s1)
    requires Spaces(s1) == Some("de " + month) && Literal("de " + month, "de") == Some(" " + month)
    requires Spaces(" " + month) == Some(month) && Letters(month, 1) == Some(s4) && Optionally(s4, ",") == Some(s4)
    requires Spaces(s4) == Some("de " + year) && Literal("de " + year, "de") == Some(" " + year)
    requires Spaces(" " + year) == Some(year) && Digits(year, 4, 4) == Some(s8) && Spaces(s8) == Some(clock)
    requires Digits(clock, 1, 2) == Some(":" + (d.minute + (":" + d.second)))
    requires Literal(":" + (d.minute + (":" + d.second)), ":") == Some(d.minute + (":" + d.second))
    requires Digits(d.minute + (":" + d.second), 2, 2) == Some(":" + d.second)
    requires Literal(":" + d.second, ":") == Some(d.second) && DigitSpan(d.second) >= 2
    ensures IsPageDate(s)
  {
    hide Letters, Optionally, Spaces, Digits, Literal, DigitSpan;
  }
}
