/**
 * The line patterns of the log assembler (src/sassessment/legacy_logs/assembler.py)
 * written out as scanners. Digits and letters are the ASCII ones.
 */
module Recognisers {
  import opened Prelude
  import opened Text

  predicate IsDigit(c: char) { '0' <= c <= '9' }

  predicate IsLetter(c: char) { 'a' <= c <= 'z' || 'A' <= c <= 'Z' }

  function DigitSpan(s: string): (n: nat)
    ensures n <= |s|
    ensures forall i :: 0 <= i < n ==> IsDigit(s[i])
    ensures n < |s| ==> !IsDigit(s[n])
  {
    if s != "" && IsDigit(s[0]) then 1 + DigitSpan(s[1..]) else 0
  }

  function LetterSpan(s: string): (n: nat)
    ensures n <= |s|
  {
    if s != "" && IsLetter(s[0]) then 1 + LetterSpan(s[1..]) else 0
  }

  // Each scanner yields the text behind what it matched.

  /** Skips `lo` to `hi` digits, when no digit follows them. */
  function Digits(s: string, lo: nat, hi: nat): Option<string> {
    if lo <= DigitSpan(s) <= hi then Some(s[DigitSpan(s)..]) else None
  }

  function Letters(s: string, lo: nat): Option<string> {
    if lo <= LetterSpan(s) then Some(s[LetterSpan(s)..]) else None
  }

  function Spaces(s: string): Option<string> {
    if s != "" && IsSpace(s[0]) then Some(LStrip(s)) else None
  }

  function Literal(s: string, text: string): Option<string> {
    if text <= s then Some(s[|text|..]) else None
  }

  function Optionally(s: string, text: string): Option<string> {
    Some(if text <= s then s[|text|..] else s)
  }

  /** A number, then the words "Sistema SAS", with only spaces around; a form feed is a space. */
  predicate IsPageHeader(s: string) {
    var t := LStrip(s);
    var n := DigitSpan(t);
    n > 0 && n < |t| && IsSpace(t[n]) && Strip(t[n..]) == "Sistema SAS"
  }

  function MatchPageDate(s: string): Option<string> {
    var weekday :- Letters(s, 3);
    var comma :- Optionally(weekday, ",");
    var day :- Spaces(comma);
    var s1 :- Digits(day, 1, 2);
    var s2 :- Spaces(s1);
    var s3 :- Literal(s2, "de");
    var month :- Spaces(s3);
    var s4 :- Letters(month, 1);
    var s5 :- Optionally(s4, ",");
    var s6 :- Spaces(s5);
    var s7 :- Literal(s6, "de");
    var year :- Spaces(s7);
    var s8 :- Digits(year, 4, 4);
    var hour :- Spaces(s8);
    var s9 :- Digits(hour, 1, 2);
    var minute :- Literal(s9, ":");
    var s10 :- Digits(minute, 2, 2);
    var second :- Literal(s10, ":");
    if DigitSpan(second) >= 2 then Some(second[2..]) else None
  }

  predicate IsPageDate(s: string) {
    MatchPageDate(s).Some?
  }

  /** A source line: a number, spaces, then a plus sign. */
  predicate IsSourceNew(s: string) {
    var n := DigitSpan(s);
    n > 0 && n < |s| && IsSpace(s[n]) && "+" <= LStrip(s[n..])
  }

  /** A continued source line: a number, spaces, then an exclamation mark and a plus sign. */
  predicate IsNumberedContinuation(s: string) {
    var n := DigitSpan(s);
    n > 0 && n < |s| && IsSpace(s[n]) && "!+" <= LStrip(s[n..])
  }

  function LowerChar(c: char): char {
    if 'A' <= c <= 'Z' then c + 32 as char else c
  }

  function Lower(s: string): string {
    seq(|s|, i requires 0 <= i < |s| => LowerChar(s[i]))
  }

  const STATUS_KEYS := [
    "salida", "generated_out", "out_status", "load_status", "hora leida para salida", "status", "cod_err",
    "date_etl", "num_date_ref_yyyymmdd"]

  /** A status key in any case, spaces, then ':' or '='. */
  predicate IsStatusLine(s: string) {
    exists i :: 0 <= i < |STATUS_KEYS| && IsStatusKey(s, STATUS_KEYS[i])
  }

  predicate IsStatusKey(s: string, key: string) {
    key <= Lower(s) &&
    |key| <= |s| && var rest := LStrip(s[|key|..]); ":" <= rest || "=" <= rest
  }

  predicate IsAutovar(s: string) {
    "_ERROR_" <= s && |s| > 7 && (s[7] == '=' || IsSpace(s[7]))
  }

  predicate IsTimeSleep(s: string) {
    "time_sleep:" <= s && DigitSpan(LStrip(s[11..])) > 0
  }

  datatype Anchor =
    | PageHeader | TbLog | SasSource | SasSourceCont | SasMessage | Checkpoint | TimeSleep | CallDmf
    | FrameworkStatus | SasAutovar | RawUnknown

  function DetectAnchor(content: string): Option<Anchor> {
    if IsPageHeader(content) then Some(PageHeader)
    else if "TB_LOG:" <= content then Some(TbLog)
    else if IsSourceNew(content) then Some(SasSource)
    else if "!+" <= content then Some(SasSourceCont)
    else if "NOTE:" <= content || "WARNING:" <= content || "ERROR:" <= content then Some(SasMessage)
    else if "#Tiempo actual:" <= content then Some(Checkpoint)
    else if "#Desde el comienzo" <= content then Some(Checkpoint)
    else if "$Desde el anterior hito" <= content then Some(Checkpoint)
    else if IsTimeSleep(content) then Some(TimeSleep)
    else if "CALL_DMF:" <= content then Some(CallDmf)
    else if IsStatusLine(content) then Some(FrameworkStatus)
    else if IsAutovar(content) then Some(SasAutovar)
    else None
  }

  lemma SpaceHasNoDash(pad: string)
    requires AllSpace(pad)
    ensures '-' !in pad
  {
  }

  /** The pieces of a page header. */
  lemma PageHeaderParts(s: string) returns (pad: string, digits: string, before: string, after: string)
    requires IsPageHeader(s)
    ensures s == pad + (digits + (before + "Sistema SAS" + after))
    ensures AllSpace(pad) && AllSpace(before) && AllSpace(after)
    ensures forall i :: 0 <= i < |digits| ==> IsDigit(digits[i])
  {
    pad := LStripSuffix(s);
    var t := LStrip(s);
    digits := t[..DigitSpan(t)];
    var rest := t[DigitSpan(t)..];
    before, after := StripParts(rest);
    assert t == digits + rest;
  }

  /** No dash occurs in a page header. */
  lemma PageHeaderHasNoDash(s: string)
    requires IsPageHeader(s)
    ensures '-' !in s
  {
    hide IsPageHeader;
    var pad, digits, before, after := PageHeaderParts(s);
    SpaceHasNoDash(pad);
    SpaceHasNoDash(before);
    SpaceHasNoDash(after);
    NoDashConcat(before, "Sistema SAS");
    NoDashConcat(before + "Sistema SAS", after);
    NoDashConcat(digits, before + "Sistema SAS" + after);
    NoDashConcat(pad, digits + (before + "Sistema SAS" + after));
  }

  lemma NoDashConcat(a: string, b: string)
    ensures '-' in a + b <==> '-' in a || '-' in b
  {
  }

  /** A localized date line starts with a letter, so it is never a page header. */
  lemma PageDateIsNoHeader(s: string)
    requires IsPageDate(s)
    ensures !IsPageHeader(s)
  {
    assert IsLetter(s[0]) && !IsSpace(s[0]);
  }
}
