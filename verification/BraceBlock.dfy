/**
 * The result-envelope extractor (src/sassessment/opencode_adapter/envelope.py): the
 * longest brace-balanced block that mentions "status", with strings and escapes skipped.
 */
module BraceBlock {
  import opened Prelude

  /** The scanner behind a prefix of a block. */
  datatype Scan = Scan(depth: int, inString: bool, escape: bool)

  const SCAN_START := Scan(0, false, false)

  function Advance(s: Scan, ch: char): Scan {
    if s.inString then
      if s.escape then s.(escape := false)
      else if ch == '\\' then s.(escape := true)
      else if ch == '"' then s.(inString := false)
      else s
    else if ch == '"' then s.(inString := true)
    else if ch == '{' then s.(depth := s.depth + 1)
    else if ch == '}' then s.(depth := s.depth - 1)
    else s
  }

  /** The scanner after `block`, started outside strings at depth 0. */
  function After(block: string): Scan {
    if block == "" then SCAN_START else Advance(After(block[..|block| - 1]), block[|block| - 1])
  }

  /** A block opens with a brace and its depth first returns to 0 at its end. */
  predicate BalancedBlock(block: string) {
    && |block| > 0 && block[0] == '{'
    && After(block).depth == 0
    && forall n :: 0 < n < |block| ==> After(block[..n]).depth > 0
  }

  predicate QuotedStatusAt(block: string, i: nat) {
    i + 8 <= |block| && block[i..i + 8] == "\"status\""
  }

  /** The quoted word "status" occurs somewhere. */
  predicate MentionsStatus(block: string) {
    exists i :: 0 <= i < |block| && QuotedStatusAt(block, i)
  }

  ghost predicate Contains(s: string, part: string) {
    exists k :: 0 <= k <= |s| && part <= s[k..]
  }

  /** text[start..end] is a candidate. */
  predicate Candidate(text: string, start: nat, end: nat) {
    start <= end <= |text| && BalancedBlock(text[start..end]) && MentionsStatus(text[start..end])
  }

  /** `best` is the longest candidate that starts before `bound`, the earliest one on ties. */
  ghost predicate IsBest(text: string, bound: nat, best: Option<(nat, nat)>) {
    match best
    case None => forall s: nat, e: nat :: s < bound ==> !Candidate(text, s, e)
    case Some(b) =>
      && b.0 < bound && Candidate(text, b.0, b.1)
      && forall s: nat, e: nat :: s < bound && Candidate(text, s, e) ==>
           e - s < b.1 - b.0 || (e - s == b.1 - b.0 && b.0 <= s)
  }

  lemma AfterNext(text: string, start: nat, n: nat)
    requires start <= n < |text|
    ensures After(text[start..n + 1]) == Advance(After(text[start..n]), text[n])
  {
    var block := text[start..n + 1];
    assert block[..|block| - 1] == text[start..n];
  }

  /** Behind the end of a block, no longer text from the same start is a block. */
  lemma NoLaterEnd(text: string, start: nat, a: nat, b: nat)
    requires start <= a < b <= |text| && BalancedBlock(text[start..a])
    ensures !BalancedBlock(text[start..b])
  {
    var long := text[start..b];
    assert long[..a - start] == text[start..a];
    assert After(long[..a - start]).depth == 0;
  }

  /** From one start at most one end is balanced. */
  lemma OneEnd(text: string, start: nat, a: nat, b: nat)
    requires start <= a <= |text| && start <= b <= |text|
    requires BalancedBlock(text[start..a]) && BalancedBlock(text[start..b])
    ensures a == b
  {
    if a < b {
      NoLaterEnd(text, start, a, b);
    } else if b < a {
      NoLaterEnd(text, start, b, a);
    }
  }

  predicate OpenThrough(text: string, start: nat, n: nat)
    requires start <= n <= |text|
  {
    forall k :: start < k <= n ==> After(text[start..k]).depth > 0
  }

  /** A block that is still open so far cannot have ended. */
  lemma NotEndedYet(text: string, start: nat, n: nat, end: nat)
    requires start <= n <= |text| && start <= end <= n && OpenThrough(text, start, n)
    ensures !BalancedBlock(text[start..end])
  {
    assert start < end ==> After(text[start..end]).depth > 0;
  }

  /** Where the block opened at `start` ends, if it does. */
  method BlockEnd(text: string, start: nat) returns (end: Option<nat>)
    requires start < |text| && text[start] == '{'
    ensures end.Some? ==> start <= end.value <= |text| && BalancedBlock(text[start..end.value])
    ensures end.None? ==> forall e :: start <= e <= |text| ==> !BalancedBlock(text[start..e])
  {
    var depth := 0;
    var inString := false;
    var escape := false;
    for index := start to |text|
      invariant After(text[start..index]) == Scan(depth, inString, escape)
      invariant OpenThrough(text, start, index)
      invariant index == start ==> !inString && depth == 0
      invariant index > start ==> depth > 0
    {
      var ch := text[index];
      AfterNext(text, start, index);
      if inString {
        if escape {
          escape := false;
        } else if ch == '\\' {
          escape := true;
        } else if ch == '"' {
          inString := false;
        }
        continue;
      }
      if ch == '"' {
        inString := true;
      } else if ch == '{' {
        depth := depth + 1;
      } else if ch == '}' {
        depth := depth - 1;
        if depth == 0 {
          ghost var block := text[start..index + 1];
          forall n | 0 < n < |block|
            ensures After(block[..n]).depth > 0
          {
            assert block[..n] == text[start..start + n];
          }
          return Some(index + 1);
        }
      }
    }
    forall e | start <= e <= |text|
      ensures !BalancedBlock(text[start..e])
    {
      NotEndedYet(text, start, |text|, e);
    }
    end := None;
  }

  /** `block` is the text of the best candidate, or absent when there is no candidate. */
  ghost predicate IsLargest(text: string, block: Option<string>) {
    match block
    case None => IsBest(text, |text|, None)
    case Some(b) => exists at: (nat, nat) :: IsBest(text, |text|, Some(at)) && b == text[at.0..at.1]
  }

  /** One start further: its only candidate takes over when it is strictly longer. */
  lemma NextStart(text: string, start: nat, best: Option<(nat, nat)>, end: Option<nat>)
    requires IsBest(text, start, best)
    requires end.Some? ==> Candidate(text, start, end.value)
    requires forall e: nat :: Candidate(text, start, e) ==> end == Some(e)
    ensures
      var longer := end.Some? && (best.None? || end.value - start > best.value.1 - best.value.0);
      IsBest(text, start + 1, if longer then Some((start, end.value)) else best)
  {
    hide BalancedBlock, MentionsStatus;
  }

  /** Only the end of its balanced block can make a start a candidate. */
  lemma OnlyCandidate(text: string, start: nat, end: nat)
    requires start <= end <= |text| && BalancedBlock(text[start..end])
    ensures forall e: nat :: Candidate(text, start, e) ==> e == end
  {
    forall e: nat | Candidate(text, start, e)
      ensures e == end
    {
      OneEnd(text, start, e, end);
    }
  }

  /** A candidate starts at an opening brace. */
  lemma CandidateStart(text: string, start: nat, end: nat)
    requires Candidate(text, start, end)
    ensures start < |text| && text[start] == '{'
  {
    assert text[start..end][0] == text[start];
  }

  /** The longest candidate block, the earliest on ties, or nothing when there is none. */
  method LargestBraceBlock(text: string) returns (best: Option<string>)
    ensures IsLargest(text, best)
    ensures best.Some? ==> Contains(best.value, "\"status\"")
  {
    best := None;
    var bestLen := 0;
    ghost var at: Option<(nat, nat)> := None;
    for start := 0 to |text|
      invariant IsBest(text, start, at)
      invariant best == if at.Some? then Some(text[at.value.0..at.value.1]) else None
      invariant bestLen == if at.Some? then at.value.1 - at.value.0 else 0
    {
      if text[start] != '{' {
        forall e: nat | Candidate(text, start, e)
          ensures false
        {
          CandidateStart(text, start, e);
        }
        NextStart(text, start, at, None);
        continue;
      }
      var end := BlockEnd(text, start);
      if end.None? {
        NextStart(text, start, at, None);
        continue;
      }
      var block := text[start..end.value];
      OnlyCandidate(text, start, end.value);
      NextStart(text, start, at, if MentionsStatus(block) then end else None);
      if |block| > bestLen && MentionsStatus(block) {
        best := Some(block);
        bestLen := |block|;
        at := Some((start, end.value));
      }
    }
    if best.Some? {
      LargestMentionsStatus(text, best.value);
    }
  }

  /** What is extracted holds the quoted word. */
  lemma LargestMentionsStatus(text: string, best: string)
    requires IsLargest(text, Some(best))
    ensures Contains(best, "\"status\"")
  {
    var at := LargestPosition(text, Some(best));
    assert Candidate(text, at.value.0, at.value.1);
    var i :| 0 <= i < |best| && QuotedStatusAt(best, i);
    assert best[i..][..8] == best[i..i + 8];
  }

  function TextAt(text: string, at: Option<(nat, nat)>): Option<string> {
    if at.Some? && at.value.0 <= at.value.1 <= |text| then Some(text[at.value.0..at.value.1]) else None
  }

  lemma LargestPosition(text: string, block: Option<string>) returns (at: Option<(nat, nat)>)
    requires IsLargest(text, block)
    ensures IsBest(text, |text|, at) && block == TextAt(text, at)
  {
    at := None;
    if block.Some? {
      var p: (nat, nat) :| IsBest(text, |text|, Some(p)) && block.value == text[p.0..p.1];
      at := Some(p);
    }
  }

  lemma BestIsUnique(text: string, bound: nat, a: Option<(nat, nat)>, b: Option<(nat, nat)>)
    requires IsBest(text, bound, a) && IsBest(text, bound, b)
    ensures a == b
  {
    hide Candidate;
    assert a.Some? ==> Candidate(text, a.value.0, a.value.1);
    assert b.Some? ==> Candidate(text, b.value.0, b.value.1);
  }

  /** The conditions leave no choice: a text has one largest block. */
  lemma LargestIsUnique(text: string, a: Option<string>, b: Option<string>)
    requires IsLargest(text, a) && IsLargest(text, b)
    ensures a == b
  {
    hide IsBest, IsLargest;
    var x := LargestPosition(text, a);
    var y := LargestPosition(text, b);
    BestIsUnique(text, |text|, x, y);
  }

  // ---- extraction from surrounding text ------------------------------------

  predicate Without(s: string, ch: char) {
    forall i :: 0 <= i < |s| ==> s[i] != ch
  }

  /** The last character of a balanced block is a closing brace. */
  lemma EndsInBrace(block: string)
    requires BalancedBlock(block)
    ensures block[|block| - 1] == '}'
  {
    var n := |block| - 1;
    assert block[..0] == "";
    assert n > 0 ==> After(block[..n]).depth > 0;
  }

  /** Every candidate inside pre + o + post lies in `o`, so `o` itself is the best. */
  lemma OnlyInside(pre: string, o: string, post: string, s: nat, e: nat)
    requires Without(pre, '{') && Without(post, '}')
    requires s <= e && Candidate(pre + o + post, s, e)
    ensures |pre| <= s < e <= |pre| + |o|
  {
    var text := pre + o + post;
    var block := text[s..e];
    EndsInBrace(block);
    assert text[s] == '{' && text[e - 1] == '}';
    assert forall i :: 0 <= i < |pre| ==> text[i] == pre[i];
    assert forall i :: |pre| + |o| <= i < |text| ==> text[i] == post[i - |pre| - |o|];
  }

  /**
   * With no '{' before and no '}' behind, a balanced block that mentions "status" is
   * extracted exactly.
   */
  lemma ExtractsExactly(pre: string, o: string, post: string, block: Option<string>)
    requires Without(pre, '{') && Without(post, '}')
    requires BalancedBlock(o) && MentionsStatus(o)
    requires IsLargest(pre + o + post, block)
    ensures block == Some(o)
  {
    var text := pre + o + post;
    assert text[|pre|..|pre| + |o|] == o;
    assert Candidate(text, |pre|, |pre| + |o|);
    var at: (nat, nat) :| IsBest(text, |text|, Some(at)) && block.value == text[at.0..at.1];
    OnlyInside(pre, o, post, at.0, at.1);
  }
}
