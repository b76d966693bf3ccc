/** Python's string operations as the log parser uses them. */
module Text {

  /** `str.isspace` for one character. */
  predicate IsSpace(c: char) {
    var k := c as int;
    9 <= k <= 13 || 28 <= k <= 32 || k == 0x85 || k == 0xa0 || k == 0x1680 || 0x2000 <= k <= 0x200a ||
    k == 0x2028 || k == 0x2029 || k == 0x202f || k == 0x205f || k == 0x3000
  }

  /** The characters at which `str.splitlines` breaks; each of them is a space. */
  predicate IsLineBreak(c: char) {
    var k := c as int;
    10 <= k <= 13 || 28 <= k <= 30 || k == 0x85 || k == 0x2028 || k == 0x2029
  }

  function LStrip(s: string): string {
    if s != "" && IsSpace(s[0]) then LStrip(s[1..]) else s
  }

  function RStrip(s: string): string {
    if s != "" && IsSpace(s[|s| - 1]) then RStrip(s[..|s| - 1]) else s
  }

  function Strip(s: string): string {
    RStrip(LStrip(s))
  }

  predicate AllSpace(s: string) {
    forall i :: 0 <= i < |s| ==> IsSpace(s[i])
  }

  /** No space at either end. */
  predicate Trimmed(s: string) {
    s == "" || (!IsSpace(s[0]) && !IsSpace(s[|s| - 1]))
  }

  predicate EndsWith(s: string, c: char) {
    s != "" && s[|s| - 1] == c
  }

  lemma {:induction false} LStripSuffix(s: string) returns (pad: string)
    ensures s == pad + LStrip(s) && AllSpace(pad)
    ensures LStrip(s) == "" || !IsSpace(LStrip(s)[0])
  {
    pad := "";
    if s != "" && IsSpace(s[0]) {
      pad := LStripSuffix(s[1..]);
      pad := [s[0]] + pad;
      assert s == [s[0]] + s[1..];
    }
  }

  lemma {:induction false} RStripPrefix(s: string) returns (pad: string)
    ensures s == RStrip(s) + pad && AllSpace(pad)
    ensures RStrip(s) == "" || !IsSpace(RStrip(s)[|RStrip(s)| - 1])
  {
    pad := "";
    if s != "" && IsSpace(s[|s| - 1]) {
      var init, last := s[..|s| - 1], s[|s| - 1];
      var inner := RStripPrefix(init);
      pad := inner + [last];
      assert s == init + [last];
      assert (RStrip(init) + inner) + [last] == RStrip(init) + (inner + [last]);
    }
  }

  lemma {:induction false} LStripPad(pad: string, s: string)
    requires AllSpace(pad)
    ensures LStrip(pad + s) == LStrip(s)
  {
    if pad == "" {
      assert pad + s == s;
    } else {
      assert (pad + s)[1..] == pad[1..] + s;
      LStripPad(pad[1..], s);
    }
  }

  lemma {:induction false} RStripPad(s: string, pad: string)
    requires AllSpace(pad)
    ensures RStrip(s + pad) == RStrip(s)
  {
    if pad == "" {
      assert s + pad == s;
    } else {
      assert (s + pad)[..|s + pad| - 1] == s + pad[..|pad| - 1];
      RStripPad(s, pad[..|pad| - 1]);
    }
  }

  lemma StripPadded(before: string, s: string, after: string)
    requires AllSpace(before) && AllSpace(after) && Trimmed(s)
    ensures Strip(before + s + after) == s
  {
    assert before + s + after == before + (s + after);
    LStripPad(before, s + after);
    if s == "" {
      LStripPad(after, "");
      assert s + after == after + "" == after;
    } else {
      RStripPad(s, after);
    }
  }

  /** What `strip` returns, and that it is the only trimmed text between spaces. */
  lemma StripParts(s: string) returns (before: string, after: string)
    ensures s == before + Strip(s) + after && AllSpace(before) && AllSpace(after)
    ensures Trimmed(Strip(s))
  {
    before := LStripSuffix(s);
    after := RStripPrefix(LStrip(s));
    assert s == before + (Strip(s) + after);
    if Strip(s) != "" {
      assert LStrip(s)[0] == Strip(s)[0];
    }
  }

  lemma {:induction false} LStripAppend(s: string, t: string)
    requires !AllSpace(s)
    ensures LStrip(s + t) == LStrip(s) + t
  {
    assert s != "";
    if IsSpace(s[0]) {
      assert (s + t)[1..] == s[1..] + t;
      LStripAppend(s[1..], t);
    }
  }

  // ---- joining and splitting lines -----------------------------------------

  function Join(parts: seq<string>, sep: string): string {
    if parts == [] then "" else if |parts| == 1 then parts[0] else parts[0] + sep + Join(parts[1..], sep)
  }

  lemma JoinCons(first: string, rest: seq<string>, sep: string)
    requires |rest| > 0
    ensures Join([first] + rest, sep) == first + sep + Join(rest, sep)
  {
    assert ([first] + rest)[1..] == rest;
  }

  predicate NoLineBreak(s: string) {
    forall i :: 0 <= i < |s| ==> !IsLineBreak(s[i])
  }

  /** The position of the first line break, or the length. */
  function BreakAt(s: string): (k: nat)
    ensures k <= |s|
    ensures NoLineBreak(s[..k])
    ensures k < |s| ==> IsLineBreak(s[k])
  {
    if s == "" || IsLineBreak(s[0]) then 0
    else var k := BreakAt(s[1..]); assert s[..k + 1] == [s[0]] + s[1..][..k]; k + 1
  }

  /** `str.splitlines`: a final break opens no empty line, and CR LF is one break. */
  function SplitLines(s: string): seq<string>
    decreases |s|
  {
    if s == "" then []
    else
      var k := BreakAt(s);
      if k == |s| then [s]
      else
        var width := if s[k] == '\r' && k + 1 < |s| && s[k + 1] == '\n' then 2 else 1;
        [s[..k]] + SplitLines(s[k + width..])
  }

  lemma BreakAtIs(s: string, k: nat)
    requires k <= |s| && NoLineBreak(s[..k]) && (k < |s| ==> IsLineBreak(s[k]))
    ensures BreakAt(s) == k
  {
    var b := BreakAt(s);
    forall i | 0 <= i < k
      ensures !IsLineBreak(s[i])
    {
      assert s[..k][i] == s[i];
    }
    forall i | 0 <= i < b
      ensures !IsLineBreak(s[i])
    {
      assert s[..b][i] == s[i];
    }
  }

  /** Lines without breaks, joined by newlines, split back unless the last is empty. */
  lemma {:induction false} SplitLinesJoin(lines: seq<string>)
    requires |lines| > 0 && lines[|lines| - 1] != ""
    requires forall i :: 0 <= i < |lines| ==> NoLineBreak(lines[i])
    ensures SplitLines(Join(lines, "\n")) == lines
  {
    var s := Join(lines, "\n");
    if |lines| == 1 {
      assert s[..|s|] == s;
      BreakAtIs(s, |s|);
    } else {
      var rest := Join(lines[1..], "\n");
      assert s == lines[0] + "\n" + rest;
      assert s[..|lines[0]|] == lines[0] && s[|lines[0]|] == '\n';
      BreakAtIs(s, |lines[0]|);
      assert s[|lines[0]| + 1..] == rest;
      SplitLinesJoin(lines[1..]);
    }
  }

  /** Splitting at newlines only. */
  function NewlineAt(s: string): (k: nat)
    ensures k <= |s|
    ensures '\n' !in s[..k]
    ensures k < |s| ==> s[k] == '\n'
  {
    if s == "" || s[0] == '\n' then 0
    else var k := NewlineAt(s[1..]); assert s[..k + 1] == [s[0]] + s[1..][..k]; k + 1
  }

  function TextLines(s: string): (lines: seq<string>)
    ensures |lines| > 0
    decreases |s|
  {
    var k := NewlineAt(s);
    if k == |s| then [s] else [s[..k]] + TextLines(s[k + 1..])
  }

  lemma NewlineAtIs(s: string, k: nat)
    requires k < |s| && '\n' !in s[..k] && s[k] == '\n'
    ensures NewlineAt(s) == k
  {
    var j := NewlineAt(s);
    forall i | 0 <= i < k
      ensures s[i] != '\n'
    {
      assert s[i] in s[..k];
    }
    forall i | 0 <= i < j
      ensures s[i] != '\n'
    {
      assert s[i] in s[..j];
    }
  }

  lemma TextLinesFirst(first: string, rest: string)
    requires '\n' !in first
    ensures TextLines(first + "\n" + rest) == [first] + TextLines(rest)
  {
    var t := first + "\n" + rest;
    assert t[..|first|] == first;
    NewlineAtIs(t, |first|);
    assert t[|first| + 1..] == rest;
  }

  lemma {:induction false} TextLinesAppend(s: string, line: string)
    requires '\n' !in line
    ensures TextLines(s + "\n" + line) == TextLines(s) + [line]
    decreases |s|
  {
    hide TextLines;
    var k := NewlineAt(s);
    if k == |s| {
      assert s[..k] == s;
      TextLinesFirst(s, line);
      TextLinesSingle(line);
      TextLinesSingle(s);
    } else {
      var first, rest := s[..k], s[k + 1..];
      assert s == first + "\n" + rest;
      TextLinesFirst(first, rest);
      assert s + "\n" + line == first + "\n" + (rest + "\n" + line);
      TextLinesFirst(first, rest + "\n" + line);
      TextLinesAppend(rest, line);
    }
  }

  lemma TextLinesSingle(line: string)
    requires '\n' !in line
    ensures TextLines(line) == [line]
  {
    var k := NewlineAt(line);
    assert forall i :: 0 <= i < |line| ==> line[i] in line;
  }

  // ---- quotes --------------------------------------------------------------

  function Quotes(s: string): nat {
    if s == "" then 0 else (if s[0] == '"' then 1 else 0) + Quotes(s[1..])
  }

  predicate Balanced(s: string) {
    Quotes(s) % 2 == 0
  }

  lemma {:induction false} QuotesAppend(s: string, t: string)
    ensures Quotes(s + t) == Quotes(s) + Quotes(t)
  {
    if s == "" {
      assert s + t == t;
    } else {
      assert (s + t)[1..] == s[1..] + t;
      QuotesAppend(s[1..], t);
    }
  }

  lemma {:induction false} NoQuotes(s: string)
    requires '"' !in s
    ensures Quotes(s) == 0
  {
    if s != "" {
      assert s[0] in s;
      NoQuotes(s[1..]);
    }
  }

  lemma Associate(a: string, b: string, c: string, d: string)
    ensures (a + b) + c + d == a + (b + c + d)
  {
  }
}
