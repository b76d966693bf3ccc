/**
 * Printed objects are found whole: braces, quotes and backslashes inside printed strings
 * never end a block early.
 */
module PrintedObjects {
  import opened Prelude
  import opened BraceBlock

  // ---- the printer ---------------------------------------------------------

  /** Plain text stands for numbers, words and whatever else has no quote and no brace. */
  datatype Json =
    | JsonText(text: string)
    | JsonPlain(plain: string)
    | JsonObject(members: Members)
    | JsonList(items: Items)

  datatype Members = NoMembers | Member(key: string, value: Json, others: Members)
  datatype Items = NoItems | Item(head: Json, tail: Items)

  /** A backslash before every quote and every backslash. */
  function Escaped(s: string): string {
    if s == "" then ""
    else (if s[0] == '"' || s[0] == '\\' then ['\\', s[0]] else [s[0]]) + Escaped(s[1..])
  }

  function Quoted(s: string): string {
    "\"" + Escaped(s) + "\""
  }

  function Print(v: Json): string {
    match v
    case JsonText(s) => Quoted(s)
    case JsonPlain(s) => s
    case JsonObject(members) => "{" + PrintMembers(members) + "}"
    case JsonList(items) => "[" + PrintItems(items) + "]"
  }

  function PrintMembers(m: Members): string {
    match m
    case NoMembers => ""
    case Member(key, value, others) =>
      Quoted(key) + (": " + (Print(value) + (if others.NoMembers? then "" else ", " + PrintMembers(others))))
  }

  function PrintItems(items: Items): string {
    match items
    case NoItems => ""
    case Item(head, tail) => Print(head) + (if tail.NoItems? then "" else ", " + PrintItems(tail))
  }

  predicate IsPlain(s: string) {
    '"' !in s && '{' !in s && '}' !in s
  }

  /** Plain values hold no quote and no brace. */
  predicate Valid(v: Json) {
    match v
    case JsonText(_) => true
    case JsonPlain(s) => IsPlain(s)
    case JsonObject(members) => ValidMembers(members)
    case JsonList(items) => ValidItems(items)
  }

  predicate ValidMembers(m: Members) {
    match m
    case NoMembers => true
    case Member(_, value, others) => Valid(value) && ValidMembers(others)
  }

  predicate ValidItems(items: Items) {
    match items
    case NoItems => true
    case Item(head, tail) => Valid(head) && ValidItems(tail)
  }

  predicate HasKey(m: Members, key: string) {
    m.Member? && (m.key == key || HasKey(m.others, key))
  }

  // ---- scanning on ---------------------------------------------------------

  function ScanOn(s: Scan, text: string): Scan
    decreases |text|
  {
    if text == "" then s else ScanOn(Advance(s, text[0]), text[1..])
  }

  lemma ScanOnOne(s: Scan, c: char)
    ensures ScanOn(s, [c]) == Advance(s, c)
  {
    assert [c][1..] == "";
    assert ScanOn(Advance(s, c), "") == Advance(s, c);
  }

  lemma {:induction false} ScanOnAppend(s: Scan, a: string, b: string)
    ensures ScanOn(s, a + b) == ScanOn(ScanOn(s, a), b)
    decreases |a|
  {
    if a == "" {
      assert a + b == b;
    } else {
      assert (a + b)[1..] == a[1..] + b;
      ScanOnAppend(Advance(s, a[0]), a[1..], b);
    }
  }

  lemma {:induction false} AfterIsScanOn(block: string)
    ensures After(block) == ScanOn(SCAN_START, block)
  {
    if block != "" {
      var init, last := block[..|block| - 1], block[|block| - 1];
      AfterIsScanOn(init);
      assert block == init + [last];
      ScanOnAppend(SCAN_START, init, [last]);
      assert [last][1..] == "";
    }
  }

  /** At no point of the text does the depth fall below `depth`. */
  predicate StaysAbove(s: Scan, text: string, depth: int)
    decreases |text|
  {
    s.depth >= depth && (text == "" || StaysAbove(Advance(s, text[0]), text[1..], depth))
  }

  lemma {:induction false} StaysAboveAppend(s: Scan, a: string, b: string, depth: int)
    requires StaysAbove(s, a, depth) && StaysAbove(ScanOn(s, a), b, depth)
    ensures StaysAbove(s, a + b, depth)
    decreases |a|
  {
    if a == "" {
      assert a + b == b;
    } else {
      assert (a + b)[1..] == a[1..] + b;
      StaysAboveAppend(Advance(s, a[0]), a[1..], b, depth);
    }
  }

  lemma {:induction false} StaysAbovePrefix(s: Scan, text: string, depth: int, n: nat)
    requires StaysAbove(s, text, depth) && n <= |text|
    ensures ScanOn(s, text[..n]).depth >= depth
    decreases n
  {
    if n > 0 {
      assert text[..n][1..] == text[1..][..n - 1];
      StaysAbovePrefix(Advance(s, text[0]), text[1..], depth, n - 1);
    }
  }

  /** Outside strings the text is passed without trace, and without leaving its depth. */
  predicate Neutral(text: string, depth: int) {
    ScanOn(Scan(depth, false, false), text) == Scan(depth, false, false) &&
    StaysAbove(Scan(depth, false, false), text, depth)
  }

  lemma NeutralAppend(a: string, b: string, depth: int)
    requires Neutral(a, depth) && Neutral(b, depth)
    ensures Neutral(a + b, depth)
  {
    ScanOnAppend(Scan(depth, false, false), a, b);
    StaysAboveAppend(Scan(depth, false, false), a, b, depth);
  }

  lemma {:induction false} PlainIsNeutral(s: string, depth: int)
    requires IsPlain(s)
    ensures Neutral(s, depth)
  {
    if s != "" {
      assert s[0] in s;
      PlainIsNeutral(s[1..], depth);
    }
  }

  /** Inside a string the escaped text is passed without trace. */
  lemma {:induction false} EscapedIsInside(s: string, depth: int)
    ensures ScanOn(Scan(depth, true, false), Escaped(s)) == Scan(depth, true, false)
    ensures StaysAbove(Scan(depth, true, false), Escaped(s), depth)
  {
    if s != "" {
      var inside := Scan(depth, true, false);
      var head := if s[0] == '"' || s[0] == '\\' then ['\\', s[0]] else [s[0]];
      EscapedIsInside(s[1..], depth);
      HeadIsInside(s[0], depth);
      ScanOnAppend(inside, head, Escaped(s[1..]));
      StaysAboveAppend(inside, head, Escaped(s[1..]), depth);
    }
  }

  lemma HeadIsInside(c: char, depth: int)
    ensures var head := if c == '"' || c == '\\' then ['\\', c] else [c];
      ScanOn(Scan(depth, true, false), head) == Scan(depth, true, false) &&
      StaysAbove(Scan(depth, true, false), head, depth)
  {
    var inside := Scan(depth, true, false);
    if c == '"' || c == '\\' {
      var escaping := Advance(inside, '\\');
      assert ['\\', c] == ['\\'] + [c];
      ScanOnOne(inside, '\\');
      ScanOnOne(escaping, c);
      ScanOnAppend(inside, ['\\'], [c]);
      StaysAboveAppend(inside, ['\\'], [c], depth);
    } else {
      ScanOnOne(inside, c);
    }
  }

  lemma QuotedIsNeutral(s: string, depth: int)
    ensures Neutral(Quoted(s), depth)
  {
    var outside, inside := Scan(depth, false, false), Scan(depth, true, false);
    EscapedIsInside(s, depth);
    ScanOnOne(outside, '"');
    ScanOnOne(inside, '"');
    ScanOnAppend(outside, "\"", Escaped(s));
    ScanOnAppend(outside, "\"" + Escaped(s), "\"");
    StaysAboveAppend(outside, "\"", Escaped(s), depth);
    StaysAboveAppend(outside, "\"" + Escaped(s), "\"", depth);
  }

  lemma BracedIsNeutral(body: string, depth: int)
    requires Neutral(body, depth + 1)
    ensures Neutral("{" + body + "}", depth)
  {
    var outer, inner := Scan(depth, false, false), Scan(depth + 1, false, false);
    ScanOnOne(outer, '{');
    ScanOnOne(inner, '}');
    ScanOnAppend(outer, "{", body);
    ScanOnAppend(outer, "{" + body, "}");
    StaysAboveWeaken(inner, body, depth + 1, depth);
    StaysAboveAppend(outer, "{", body, depth);
    StaysAboveAppend(outer, "{" + body, "}", depth);
  }

  lemma {:induction false} StaysAboveWeaken(s: Scan, text: string, high: int, low: int)
    requires StaysAbove(s, text, high) && low <= high
    ensures StaysAbove(s, text, low)
    decreases |text|
  {
    if text != "" {
      StaysAboveWeaken(Advance(s, text[0]), text[1..], high, low);
    }
  }

  // ---- printed values ------------------------------------------------------

  lemma {:induction false} PrintIsNeutral(v: Json, depth: int)
    requires Valid(v)
    ensures Neutral(Print(v), depth)
    decreases v
  {
    hide Neutral;
    match v {
      case JsonText(s) => QuotedIsNeutral(s, depth);
      case JsonPlain(s) => PlainIsNeutral(s, depth);
      case JsonObject(members) =>
        MembersAreNeutral(members, depth + 1);
        BracedIsNeutral(PrintMembers(members), depth);
      case JsonList(items) =>
        ItemsAreNeutral(items, depth);
        PlainIsNeutral("[", depth);
        PlainIsNeutral("]", depth);
        NeutralAppend("[", PrintItems(items), depth);
        NeutralAppend("[" + PrintItems(items), "]", depth);
    }
  }

  lemma {:induction false} MembersAreNeutral(m: Members, depth: int)
    requires ValidMembers(m)
    ensures Neutral(PrintMembers(m), depth)
    decreases m
  {
    hide Neutral;
    PlainIsNeutral("", depth);
    if m.Member? {
      QuotedIsNeutral(m.key, depth);
      PrintIsNeutral(m.value, depth);
      MembersAreNeutral(m.others, depth);
      PlainIsNeutral(": ", depth);
      PlainIsNeutral(", ", depth);
      NeutralAppend(", ", PrintMembers(m.others), depth);
      var rest := if m.others.NoMembers? then "" else ", " + PrintMembers(m.others);
      NeutralAppend(Print(m.value), rest, depth);
      NeutralAppend(": ", Print(m.value) + rest, depth);
      NeutralAppend(Quoted(m.key), ": " + (Print(m.value) + rest), depth);
    }
  }

  lemma {:induction false} ItemsAreNeutral(items: Items, depth: int)
    requires ValidItems(items)
    ensures Neutral(PrintItems(items), depth)
    decreases items
  {
    hide Neutral;
    PlainIsNeutral("", depth);
    if items.Item? {
      PrintIsNeutral(items.head, depth);
      ItemsAreNeutral(items.tail, depth);
      PlainIsNeutral(", ", depth);
      NeutralAppend(", ", PrintItems(items.tail), depth);
      NeutralAppend(Print(items.head), if items.tail.NoItems? then "" else ", " + PrintItems(items.tail), depth);
    }
  }

  lemma BodyStaysOpen(body: string, n: nat)
    requires Neutral(body, 1) && n <= |body|
    ensures After("{" + body[..n]).depth > 0
  {
    hide Advance;
    AfterIsScanOn("{" + body[..n]);
    OpensBrace();
    ScanOnAppend(SCAN_START, "{", body[..n]);
    StaysAbovePrefix(Scan(1, false, false), body, 1, n);
  }

  lemma OpensBrace()
    ensures ScanOn(SCAN_START, "{") == Scan(1, false, false)
    ensures ScanOn(Scan(1, false, false), "}") == SCAN_START
  {
    ScanOnOne(SCAN_START, '{');
    ScanOnOne(Scan(1, false, false), '}');
  }

  lemma BracedEnds(body: string)
    requires Neutral(body, 1)
    ensures After("{" + body + "}").depth == 0
  {
    hide Advance;
    var block := "{" + body + "}";
    assert block == "{" + (body + "}");
    AfterIsScanOn(block);
    OpensBrace();
    ScanOnAppend(SCAN_START, "{", body + "}");
    ScanOnAppend(Scan(1, false, false), body, "}");
  }

  /** A printed object is one balanced block, whatever its strings hold. */
  lemma PrintedIsBalanced(members: Members)
    requires ValidMembers(members)
    ensures BalancedBlock(Print(JsonObject(members)))
  {
    hide Neutral, After, PrintMembers;
    var body, block := PrintMembers(members), Print(JsonObject(members));
    MembersAreNeutral(members, 1);
    BracedEnds(body);
    forall n | 0 < n < |block|
      ensures After(block[..n]).depth > 0
    {
      assert block[..n] == "{" + body[..n - 1];
      BodyStaysOpen(body, n - 1);
    }
  }

  // ---- finding them --------------------------------------------------------

  lemma Mentions(before: string, after: string)
    ensures MentionsStatus(before + "\"status\"" + after)
  {
    var text := before + "\"status\"" + after;
    assert text[|before|..|before| + 8] == "\"status\"";
    assert QuotedStatusAt(text, |before|);
  }

  /** A printed object with the key holds the quoted word. */
  lemma {:induction false} KeyIsMentioned(m: Members) returns (before: string, after: string)
    requires HasKey(m, "status")
    ensures PrintMembers(m) == before + "\"status\"" + after
  {
    if m.key == "status" {
      before := "";
      StatusNeedsNoEscape();
      after := PrintMembers(m)[8..];
      assert PrintMembers(m) == before + "\"status\"" + after;
    } else {
      var inner;
      inner, after := KeyIsMentioned(m.others);
      before := Quoted(m.key) + (": " + (Print(m.value) + ", ")) + inner;
      assert PrintMembers(m) == before + "\"status\"" + after;
    }
  }

  lemma StatusNeedsNoEscape()
    ensures Quoted("status") == "\"status\""
  {
    EscapedLetters("status");
  }

  lemma {:induction false} EscapedLetters(s: string)
    requires '"' !in s && '\\' !in s
    ensures Escaped(s) == s
  {
    if s != "" {
      assert s[0] in s;
      EscapedLetters(s[1..]);
      assert s == [s[0]] + s[1..];
    }
  }

  /** A printed object with a "status" key is extracted exactly, from inside any text without braces around it. */
  lemma PrintedIsExtracted(pre: string, members: Members, post: string, best: Option<string>)
    requires ValidMembers(members) && HasKey(members, "status")
    requires '{' !in pre && '}' !in post
    requires IsLargest(pre + Print(JsonObject(members)) + post, best)
    ensures best == Some(Print(JsonObject(members)))
  {
    hide BalancedBlock, MentionsStatus, IsLargest, ValidMembers, HasKey;
    var o := Print(JsonObject(members));
    PrintedIsBalanced(members);
    var before, after := KeyIsMentioned(members);
    assert o == "{" + before + "\"status\"" + (after + "}");
    Mentions("{" + before, after + "}");
    forall i | 0 <= i < |pre|
      ensures pre[i] != '{'
    {
      assert pre[i] in pre;
    }
    forall i | 0 <= i < |post|
      ensures post[i] != '}'
    {
      assert post[i] in post;
    }
    ExtractsExactly(pre, o, post, best);
  }
}
