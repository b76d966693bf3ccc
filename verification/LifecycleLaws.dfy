/**
 * Laws of INI/FIN matching: a key's stages depend on its own events only, a FIN closes
 * the opening at which the key's balance first returns to zero, intervals of one key
 * nest, and orphans and unfinished stages follow from the counts.
 */
module LifecycleLaws {
  import opened Prelude
  import opened Lifecycle

  // ---- projection on one key -----------------------------------------------

  datatype KeyEvent = KeyEvent(ini: bool, at: nat)

  /** The events of key `k` among the first `n`. */
  function Project(evs: seq<Option<Ev>>, n: nat, k: Key): seq<KeyEvent>
    requires n <= |evs|
  {
    if n == 0 then []
    else
      var rest := Project(evs, n - 1, k);
      if IsOf(evs, n - 1, k) then rest + [KeyEvent(evs[n - 1].value.ini, n - 1)] else rest
  }

  predicate IsOf(evs: seq<Option<Ev>>, i: nat, k: Key) {
    i < |evs| && evs[i].Some? && evs[i].value.key == k
  }

  /** A matcher with a single stack. */
  datatype Single = Single(pairings: seq<Pairing>, stack: seq<nat>)

  function SingleStep(s: Single, e: KeyEvent): Single {
    if e.ini then Single(s.pairings + [Pairing(e.at, None, false)], s.stack + [e.at])
    else if s.stack == [] then s.(pairings := s.pairings + [Pairing(e.at, None, true)])
    else Single(Close(s.pairings, s.stack[|s.stack| - 1], e.at), s.stack[..|s.stack| - 1])
  }

  function SingleMatch(es: seq<KeyEvent>): Single {
    if es == [] then Single([], []) else SingleStep(SingleMatch(es[..|es| - 1]), es[|es| - 1])
  }

  lemma SingleMatchPush(es: seq<KeyEvent>, e: KeyEvent)
    ensures SingleMatch(es + [e]) == SingleStep(SingleMatch(es), e)
  {
    assert (es + [e])[..|es|] == es;
  }

  /** The pairings whose start belongs to key `k`, in order. */
  function OfKey(evs: seq<Option<Ev>>, pairings: seq<Pairing>, k: Key): seq<Pairing> {
    if pairings == [] then []
    else
      var last := pairings[|pairings| - 1];
      OfKey(evs, pairings[..|pairings| - 1], k) + (if IsOf(evs, last.start, k) then [last] else [])
  }

  lemma OfKeyPush(evs: seq<Option<Ev>>, pairings: seq<Pairing>, p: Pairing, k: Key)
    ensures OfKey(evs, pairings + [p], k) == OfKey(evs, pairings, k) + (if IsOf(evs, p.start, k) then [p] else [])
  {
    assert (pairings + [p])[..|pairings|] == pairings;
  }

  lemma ClosePush(pairings: seq<Pairing>, p: Pairing, start: nat, end: nat)
    ensures Close(pairings + [p], start, end)
         == Close(pairings, start, end) + [if p.start == start then p.(end := Some(end)) else p]
  {
  }

  lemma {:induction false} OfKeyClose(evs: seq<Option<Ev>>, pairings: seq<Pairing>, start: nat, end: nat, k: Key)
    ensures OfKey(evs, Close(pairings, start, end), k)
         == if IsOf(evs, start, k) then Close(OfKey(evs, pairings, k), start, end) else OfKey(evs, pairings, k)
  {
    if pairings == [] {
      assert Close(pairings, start, end) == [];
    } else {
      var init, last := pairings[..|pairings| - 1], pairings[|pairings| - 1];
      assert pairings == init + [last];
      OfKeyClose(evs, init, start, end, k);
      ClosePush(init, last, start, end);
      OfKeyPush(evs, Close(init, start, end), if last.start == start then last.(end := Some(end)) else last, k);
      OfKeyPush(evs, init, last, k);
      ClosePush(OfKey(evs, init, k), last, start, end);
    }
  }

  /** Every stack holds INI events of its key. */
  ghost predicate StacksOwn(evs: seq<Option<Ev>>, m: Matching) {
    forall k, j :: 0 <= j < |StackOf(m.stacks, k)| ==> IsOf(evs, StackOf(m.stacks, k)[j], k)
  }

  lemma {:induction false} StacksAreOwn(evs: seq<Option<Ev>>, n: nat)
    requires n <= |evs|
    ensures StacksOwn(evs, MatchAll(evs, n))
  {
    if n > 0 {
      StacksAreOwn(evs, n - 1);
      var m, next := MatchAll(evs, n - 1), MatchAll(evs, n);
      forall k, j | 0 <= j < |StackOf(next.stacks, k)|
        ensures IsOf(evs, StackOf(next.stacks, k)[j], k)
      {
        if j < |StackOf(m.stacks, k)| {
          assert IsOf(evs, StackOf(m.stacks, k)[j], k);
        }
      }
    }
  }

  lemma NothingOfKey(evs: seq<Option<Ev>>, k: Key)
    ensures OfKey(evs, [], k) == []
  {
  }

  /** Whatever keys are interleaved, key `k` is matched as if its events came alone. */
  lemma {:induction false} MatchingProjects(evs: seq<Option<Ev>>, n: nat, k: Key)
    requires n <= |evs|
    ensures OfKey(evs, MatchAll(evs, n).pairings, k) == SingleMatch(Project(evs, n, k)).pairings
    ensures StackOf(MatchAll(evs, n).stacks, k) == SingleMatch(Project(evs, n, k)).stack
  {
    hide MatchStep, SingleStep, OfKey, StacksOwn;
    if n == 0 {
      assert OfKey(evs, [], k) == [] by { NothingOfKey(evs, k); }
    } else {
      MatchingProjects(evs, n - 1, k);
      StacksAreOwn(evs, n - 1);
      var m := MatchAll(evs, n - 1);
      if evs[n - 1].Some? {
        StepProjects(evs, m, n - 1, k);
        var es := Project(evs, n - 1, k);
        var e := KeyEvent(evs[n - 1].value.ini, n - 1);
        SingleMatchPush(es, e);
      }
    }
  }

  lemma StepProjects(evs: seq<Option<Ev>>, m: Matching, at: nat, k: Key)
    requires at < |evs| && evs[at].Some? && StacksOwn(evs, m)
    ensures var e, next := evs[at].value, MatchStep(m, evs[at].value, at);
      var s := Single(OfKey(evs, m.pairings, k), StackOf(m.stacks, k));
      Single(OfKey(evs, next.pairings, k), StackOf(next.stacks, k))
      == if e.key == k then SingleStep(s, KeyEvent(e.ini, at)) else s
  {
    hide OfKey, Close;
    var e := evs[at].value;
    var stack := StackOf(m.stacks, e.key);
    if e.ini {
      PushProjects(evs, m.pairings, at, false, k);
    } else if stack == [] {
      PushProjects(evs, m.pairings, at, true, k);
    } else {
      assert IsOf(evs, stack[|stack| - 1], e.key);
      CloseProjects(evs, m.pairings, stack[|stack| - 1], at, e.key, k);
    }
  }

  lemma PushProjects(evs: seq<Option<Ev>>, pairings: seq<Pairing>, at: nat, orphan: bool, k: Key)
    ensures OfKey(evs, pairings + [Pairing(at, None, orphan)], k)
         == if IsOf(evs, at, k) then OfKey(evs, pairings, k) + [Pairing(at, None, orphan)] else OfKey(evs, pairings, k)
  {
    OfKeyPush(evs, pairings, Pairing(at, None, orphan), k);
  }

  lemma CloseProjects(evs: seq<Option<Ev>>, pairings: seq<Pairing>, start: nat, end: nat, key: Key, k: Key)
    requires IsOf(evs, start, key)
    ensures OfKey(evs, Close(pairings, start, end), k)
         == if key == k then Close(OfKey(evs, pairings, k), start, end) else OfKey(evs, pairings, k)
  {
    OfKeyClose(evs, pairings, start, end, k);
  }

  // ---- balance -------------------------------------------------------------

  function Delta(evs: seq<Option<Ev>>, k: Key, i: nat): int {
    if !IsOf(evs, i, k) then 0 else if evs[i].value.ini then 1 else -1
  }

  /** #INI - #FIN of key `k` among events i..j-1. */
  function Balance(evs: seq<Option<Ev>>, k: Key, i: nat, j: nat): int
    decreases j
  {
    if j <= i then 0 else Balance(evs, k, i, j - 1) + Delta(evs, k, j - 1)
  }

  lemma {:induction false} BalanceSplits(evs: seq<Option<Ev>>, k: Key, i: nat, mid: nat, j: nat)
    requires i <= mid <= j
    ensures Balance(evs, k, i, j) == Balance(evs, k, i, mid) + Balance(evs, k, mid, j)
    decreases j
  {
    if mid < j {
      BalanceSplits(evs, k, i, mid, j - 1);
    }
  }

  /** From the INI at `a` the balance of its key stays positive and first returns to zero with event `b`. */
  ghost predicate Closes(evs: seq<Option<Ev>>, a: nat, b: nat) {
    && a < b < |evs| && evs[a].Some? && evs[a].value.ini
    && Balance(evs, evs[a].value.key, a, b + 1) == 0
    && OpenUntil(evs, evs[a].value.key, a, b)
  }

  ghost predicate OpenUntil(evs: seq<Option<Ev>>, k: Key, a: nat, n: nat) {
    forall c: nat :: a < c <= n ==> Balance(evs, k, a, c) >= 1
  }

  /** Two intervals of one key are nested or disjoint. */
  lemma IntervalsNest(evs: seq<Option<Ev>>, a: nat, b: nat, c: nat, d: nat)
    requires Closes(evs, a, b) && Closes(evs, c, d) && a < c
    requires evs[a].value.key == evs[c].value.key
    ensures b < c || d < b
  {
    var k := evs[a].value.key;
    var after: nat := b + 1;
    assert c <= b ==> Balance(evs, k, a, c) >= 1;
    assert c < after <= d ==> Balance(evs, k, c, after) >= 1;
    if c <= b {
      BalanceSplits(evs, k, a, c, after);
    }
  }

  lemma ClosesOnce(evs: seq<Option<Ev>>, a: nat, b: nat, d: nat)
    requires Closes(evs, a, b) && Closes(evs, a, d)
    ensures b == d
  {
    var k := evs[a].value.key;
    var after: nat, later: nat := b + 1, d + 1;
    assert after <= d ==> Balance(evs, k, a, after) >= 1;
    assert later <= b ==> Balance(evs, k, a, later) >= 1;
  }

  /** A FIN that closes nothing. */
  ghost predicate OrphanFin(evs: seq<Option<Ev>>, b: nat) {
    b < |evs| && evs[b].Some? && !evs[b].value.ini && forall a: nat :: a < b ==> !Closes(evs, a, b)
  }

  // ---- the matching is the balance matching --------------------------------

  ghost predicate OpenLevel(evs: seq<Option<Ev>>, k: Key, n: nat, stack: seq<nat>, j: nat)
    requires j < |stack|
  {
    var a := stack[j];
    && a < n && IsOf(evs, a, k) && evs[a].value.ini
    && Balance(evs, k, a, n) == |stack| - j
    && OpenUntil(evs, k, a, n)
  }

  ghost predicate StackRight(evs: seq<Option<Ev>>, k: Key, n: nat, stack: seq<nat>) {
    && (forall j :: 0 <= j < |stack| ==> OpenLevel(evs, k, n, stack, j))
    && (forall a: nat :: a < n && IsOf(evs, a, k) && evs[a].value.ini ==> a in stack || ClosedBefore(evs, a, n))
  }

  ghost predicate ClosedBefore(evs: seq<Option<Ev>>, a: nat, n: nat) {
    exists b: nat :: b < n && Closes(evs, a, b)
  }

  lemma {:induction false} StacksRight(evs: seq<Option<Ev>>, n: nat, k: Key)
    requires n <= |evs|
    ensures StackRight(evs, k, n, StackOf(MatchAll(evs, n).stacks, k))
  {
    if n > 0 {
      StacksRight(evs, n - 1, k);
      var stack := StackOf(MatchAll(evs, n - 1).stacks, k);
      if !IsOf(evs, n - 1, k) {
        StackWaits(evs, k, n - 1, stack);
      } else if evs[n - 1].value.ini {
        StackPushes(evs, k, n - 1, stack);
      } else {
        StackPops(evs, k, n - 1, stack);
      }
    }
  }

  lemma StackWaits(evs: seq<Option<Ev>>, k: Key, n: nat, stack: seq<nat>)
    requires n < |evs| && StackRight(evs, k, n, stack) && !IsOf(evs, n, k)
    ensures StackRight(evs, k, n + 1, stack)
  {
    var next := n + 1;
    forall j | 0 <= j < |stack|
      ensures OpenLevel(evs, k, next, stack, j)
    {
      assert OpenLevel(evs, k, n, stack, j);
    }
  }

  lemma StackPushes(evs: seq<Option<Ev>>, k: Key, n: nat, stack: seq<nat>)
    requires n < |evs| && StackRight(evs, k, n, stack) && IsOf(evs, n, k) && evs[n].value.ini
    ensures StackRight(evs, k, n + 1, stack + [n])
  {
    var next := n + 1;
    var more := stack + [n];
    forall j | 0 <= j < |more|
      ensures OpenLevel(evs, k, next, more, j)
    {
      if j < |stack| {
        assert OpenLevel(evs, k, n, stack, j);
      }
    }
  }

  lemma StackPops(evs: seq<Option<Ev>>, k: Key, n: nat, stack: seq<nat>)
    requires n < |evs| && StackRight(evs, k, n, stack) && IsOf(evs, n, k) && !evs[n].value.ini
    ensures stack != [] ==> Closes(evs, stack[|stack| - 1], n)
    ensures StackRight(evs, k, n + 1, if stack == [] then [] else stack[..|stack| - 1])
  {
    var next := n + 1;
    if stack != [] {
      var rest, top := stack[..|stack| - 1], stack[|stack| - 1];
      assert OpenLevel(evs, k, n, stack, |stack| - 1);
      assert Closes(evs, top, n);
      assert stack == rest + [top];
      forall j | 0 <= j < |rest|
        ensures OpenLevel(evs, k, next, rest, j)
      {
        assert OpenLevel(evs, k, n, stack, j);
      }
    }
  }

  lemma NotClosedAgain(evs: seq<Option<Ev>>, a: nat, n: nat)
    requires ClosedBefore(evs, a, n)
    ensures !Closes(evs, a, n)
  {
    var b: nat :| b < n && Closes(evs, a, b);
    if Closes(evs, a, n) {
      ClosesOnce(evs, a, b, n);
    }
  }

  /** A FIN met with an empty stack is an orphan, one met with an open stage is not. */
  lemma FinIsOrphan(evs: seq<Option<Ev>>, n: nat, stack: seq<nat>)
    requires n < |evs| && evs[n].Some? && !evs[n].value.ini && StackRight(evs, evs[n].value.key, n, stack)
    ensures OrphanFin(evs, n) <==> stack == []
  {
    var k := evs[n].value.key;
    if stack == [] {
      forall a: nat | a < n
        ensures !Closes(evs, a, n)
      {
        if ClosedBefore(evs, a, n) {
          NotClosedAgain(evs, a, n);
        } else if Closes(evs, a, n) {
          ClosingKey(evs, a, n);
        }
      }
    } else {
      StackPops(evs, k, n, stack);
      assert OpenLevel(evs, k, n, stack, |stack| - 1);
    }
  }

  /** What closes an INI is a FIN of the same key. */
  lemma ClosingKey(evs: seq<Option<Ev>>, a: nat, b: nat)
    requires Closes(evs, a, b)
    ensures IsOf(evs, b, evs[a].value.key) && !evs[b].value.ini
  {
    assert Balance(evs, evs[a].value.key, a, b) >= 1;
  }

  /** A pairing says exactly what the balance says, as far as the first `n` events go. */
  ghost predicate PairingRight(evs: seq<Option<Ev>>, n: nat, p: Pairing) {
    && p.start < n <= |evs| && evs[p.start].Some?
    && if p.orphan then OrphanFin(evs, p.start) && p.end == None
       else
         && evs[p.start].value.ini
         && (p.end.Some? ==> p.end.value < n && Closes(evs, p.start, p.end.value))
         && (p.end.None? ==> !ClosedBefore(evs, p.start, n))
  }

  ghost predicate PairingsRight(evs: seq<Option<Ev>>, n: nat, pairings: seq<Pairing>) {
    && (forall i :: 0 <= i < |pairings| ==> PairingRight(evs, n, pairings[i]))
    && (forall a: nat :: a < n && Starts(evs, a) ==> StartIn(pairings, a))
  }

  /** Every INI and every orphan FIN starts a stage. */
  ghost predicate Starts(evs: seq<Option<Ev>>, a: nat) {
    a < |evs| && evs[a].Some? && (evs[a].value.ini || OrphanFin(evs, a))
  }

  predicate StartIn(pairings: seq<Pairing>, a: nat) {
    exists i :: 0 <= i < |pairings| && pairings[i].start == a
  }

  lemma NotClosedYet(evs: seq<Option<Ev>>, n: nat, p: Pairing)
    requires PairingRight(evs, n, p) && n < |evs|
    requires evs[n].Some? ==> !Closes(evs, p.start, n)
    ensures PairingRight(evs, n + 1, p)
  {
    if !p.orphan && p.end.None? && ClosedBefore(evs, p.start, n + 1) {
      var b: nat :| b < n + 1 && Closes(evs, p.start, b);
      if b == n {
        ClosingKey(evs, p.start, n);
      }
    }
  }

  lemma StartInPush(pairings: seq<Pairing>, p: Pairing, a: nat)
    ensures StartIn(pairings + [p], a) <==> StartIn(pairings, a) || a == p.start
  {
    assert (pairings + [p])[|pairings|] == p;
    if StartIn(pairings, a) {
      var i :| 0 <= i < |pairings| && pairings[i].start == a;
      assert (pairings + [p])[i].start == a;
    }
  }

  lemma PushKeepsRight(evs: seq<Option<Ev>>, n: nat, pairings: seq<Pairing>, p: Pairing)
    requires n < |evs| && PairingsRight(evs, n, pairings) && PairingRight(evs, n + 1, p) && p.start == n
    requires forall a: nat :: a < n ==> !Closes(evs, a, n)
    ensures PairingsRight(evs, n + 1, pairings + [p])
  {
    forall i | 0 <= i < |pairings + [p]|
      ensures PairingRight(evs, n + 1, (pairings + [p])[i])
    {
      if i < |pairings| {
        NotClosedYet(evs, n, pairings[i]);
      }
    }
    forall a: nat | a < n + 1 && Starts(evs, a)
      ensures StartIn(pairings + [p], a)
    {
      StartInPush(pairings, p, a);
    }
  }

  lemma SkipKeepsRight(evs: seq<Option<Ev>>, n: nat, pairings: seq<Pairing>)
    requires n < |evs| && PairingsRight(evs, n, pairings) && evs[n].None?
    ensures PairingsRight(evs, n + 1, pairings)
  {
    forall i | 0 <= i < |pairings|
      ensures PairingRight(evs, n + 1, pairings[i])
    {
      NotClosedYet(evs, n, pairings[i]);
    }
  }

  lemma CloseKeepsRight(evs: seq<Option<Ev>>, n: nat, pairings: seq<Pairing>, top: nat)
    requires n < |evs| && PairingsRight(evs, n, pairings) && Closes(evs, top, n)
    ensures PairingsRight(evs, n + 1, Close(pairings, top, n))
  {
    var closed := Close(pairings, top, n);
    ClosingKey(evs, top, n);
    forall i | 0 <= i < |closed|
      ensures PairingRight(evs, n + 1, closed[i])
    {
      var p := pairings[i];
      assert PairingRight(evs, n, p);
      if p.start != top {
        if Closes(evs, p.start, n) {
          OneOpener(evs, p.start, top, n);
        }
        NotClosedYet(evs, n, p);
      }
    }
    forall a: nat | a < n + 1 && Starts(evs, a)
      ensures StartIn(closed, a)
    {
      assert StartIn(pairings, a);
      var i :| 0 <= i < |pairings| && pairings[i].start == a;
      assert closed[i].start == a;
    }
  }

  /** One event closes at most one INI. */
  lemma OneOpener(evs: seq<Option<Ev>>, a: nat, c: nat, b: nat)
    requires Closes(evs, a, b) && Closes(evs, c, b)
    ensures a == c
  {
    ClosingKey(evs, a, b);
    ClosingKey(evs, c, b);
    if a < c {
      IntervalsNest(evs, a, b, c, b);
    } else if c < a {
      IntervalsNest(evs, c, b, a, b);
    }
  }

  lemma IniClosesNothing(evs: seq<Option<Ev>>, n: nat)
    requires n < |evs| && evs[n].Some? && evs[n].value.ini
    ensures forall a: nat :: a < n ==> !Closes(evs, a, n)
  {
    forall a: nat | a < n
      ensures !Closes(evs, a, n)
    {
      if Closes(evs, a, n) {
        ClosingKey(evs, a, n);
      }
    }
  }

  lemma {:induction false} MatchingRight(evs: seq<Option<Ev>>, n: nat)
    requires n <= |evs|
    ensures PairingsRight(evs, n, MatchAll(evs, n).pairings)
  {
    if n > 0 {
      MatchingRight(evs, n - 1);
      var m := MatchAll(evs, n - 1);
      if evs[n - 1].None? {
        SkipKeepsRight(evs, n - 1, m.pairings);
      } else {
        StepRight(evs, n - 1, m);
      }
    }
  }

  lemma StepRight(evs: seq<Option<Ev>>, at: nat, m: Matching)
    requires at < |evs| && evs[at].Some? && m == MatchAll(evs, at) && PairingsRight(evs, at, m.pairings)
    ensures PairingsRight(evs, at + 1, MatchStep(m, evs[at].value, at).pairings)
  {
    var e := evs[at].value;
    var stack := StackOf(m.stacks, e.key);
    StacksRight(evs, at, e.key);
    if e.ini {
      IniClosesNothing(evs, at);
      var p := Pairing(at, None, false);
      assert !ClosedBefore(evs, at, at + 1);
      PushKeepsRight(evs, at, m.pairings, p);
    } else {
      FinIsOrphan(evs, at, stack);
      if stack == [] {
        PushKeepsRight(evs, at, m.pairings, Pairing(at, None, true));
      } else {
        StackPops(evs, e.key, at, stack);
        CloseKeepsRight(evs, at, m.pairings, stack[|stack| - 1]);
      }
    }
  }

  /**
   * The built stages, in order of their starts, are exactly: one per INI, closed by the
   * event at which its key's balance first returns to zero, or left incomplete if none
   * does; and one incomplete orphan per FIN that closes nothing.
   */
  lemma StagesAreBalanced(records: seq<ParsedRecord>)
    ensures var evs, stages := Events(records), Stages(records);
      && (forall i, j :: 0 <= i < j < |stages| ==> stages[i].start < stages[j].start)
      && (forall a: nat :: Starts(evs, a) <==> exists i :: 0 <= i < |stages| && stages[i].start == a)
      && (forall i :: 0 <= i < |stages| ==>
            && (stages[i].orphan <==> OrphanFin(evs, stages[i].start))
            && (stages[i].complete <==> stages[i].end.Some?)
            && (forall b: nat :: stages[i].end == Some(b) <==> Closes(evs, stages[i].start, b)))
  {
    var evs, n := Events(records), |records|;
    var pairings := MatchAll(evs, n).pairings;
    var stages := Stages(records);
    StartsAscend(evs, n);
    MatchingRight(evs, n);
    assert |stages| == |pairings| && forall i :: 0 <= i < |stages| ==>
      stages[i].start == pairings[i].start && stages[i].end == pairings[i].end &&
      stages[i].orphan == pairings[i].orphan;
    forall i | 0 <= i < |stages|
      ensures Starts(evs, stages[i].start)
      ensures stages[i].orphan <==> OrphanFin(evs, stages[i].start)
      ensures forall b: nat :: stages[i].end == Some(b) <==> Closes(evs, stages[i].start, b)
    {
      PairingIsBalance(evs, n, pairings[i]);
    }
    forall a: nat | Starts(evs, a)
      ensures exists i :: 0 <= i < |stages| && stages[i].start == a
    {
      assert StartIn(pairings, a);
      var i :| 0 <= i < |pairings| && pairings[i].start == a;
      assert stages[i].start == a;
    }
  }

  lemma PairingIsBalance(evs: seq<Option<Ev>>, n: nat, p: Pairing)
    requires n == |evs| && PairingRight(evs, n, p)
    ensures Starts(evs, p.start)
    ensures p.orphan <==> OrphanFin(evs, p.start)
    ensures forall b: nat :: p.end == Some(b) <==> Closes(evs, p.start, b)
  {
    forall b: nat | Closes(evs, p.start, b)
      ensures p.end == Some(b)
    {
      assert ClosedBefore(evs, p.start, n);
      ClosesOnce(evs, p.start, p.end.value, b);
    }
  }

  // ---- orphan arithmetic ---------------------------------------------------

  /** #FIN - #INI of key `k` among the first `n` events. */
  function Excess(evs: seq<Option<Ev>>, k: Key, n: nat): int {
    -Balance(evs, k, 0, n)
  }

  /** The largest excess of any prefix, the empty one included. */
  function MaxExcess(evs: seq<Option<Ev>>, k: Key, n: nat): int
    ensures MaxExcess(evs, k, n) >= 0
    decreases n
  {
    if n == 0 then 0
    else
      var m, e := MaxExcess(evs, k, n - 1), Excess(evs, k, n);
      if e > m then e else m
  }

  lemma {:induction false} MaxExcessBounds(evs: seq<Option<Ev>>, k: Key, n: nat, i: nat)
    requires i <= n
    ensures Excess(evs, k, i) <= MaxExcess(evs, k, n)
    ensures exists j :: 0 <= j <= n && MaxExcess(evs, k, n) == Excess(evs, k, j)
    decreases n
  {
    if n == 0 {
      assert MaxExcess(evs, k, n) == Excess(evs, k, 0);
    } else {
      MaxExcessBounds(evs, k, n - 1, if i < n then i else 0);
      if MaxExcess(evs, k, n) == MaxExcess(evs, k, n - 1) {
        var j :| 0 <= j <= n - 1 && MaxExcess(evs, k, n - 1) == Excess(evs, k, j);
        assert MaxExcess(evs, k, n) == Excess(evs, k, j);
      } else {
        assert MaxExcess(evs, k, n) == Excess(evs, k, n);
      }
    }
  }

  function Orphans(pairings: seq<Pairing>): nat {
    if pairings == [] then 0
    else Orphans(pairings[..|pairings| - 1]) + (if pairings[|pairings| - 1].orphan then 1 else 0)
  }

  function Incomplete(pairings: seq<Pairing>): nat {
    if pairings == [] then 0
    else Incomplete(pairings[..|pairings| - 1]) + (if pairings[|pairings| - 1].end.None? then 1 else 0)
  }

  lemma CountPush(pairings: seq<Pairing>, p: Pairing)
    ensures Orphans(pairings + [p]) == Orphans(pairings) + (if p.orphan then 1 else 0)
    ensures Incomplete(pairings + [p]) == Incomplete(pairings) + (if p.end.None? then 1 else 0)
  {
    assert (pairings + [p])[..|pairings|] == pairings;
  }

  /** How often a start occurs, and how often it is still open. */
  function OpenStarts(pairings: seq<Pairing>, start: nat): nat {
    if pairings == [] then 0
    else
      var last := pairings[|pairings| - 1];
      OpenStarts(pairings[..|pairings| - 1], start) + (if last.start == start && last.end.None? then 1 else 0)
  }

  lemma {:induction false} CountClose(pairings: seq<Pairing>, start: nat, end: nat)
    ensures Orphans(Close(pairings, start, end)) == Orphans(pairings)
    ensures Incomplete(Close(pairings, start, end)) == Incomplete(pairings) - OpenStarts(pairings, start)
    ensures forall other ::
      OpenStarts(Close(pairings, start, end), other) == if other == start then 0 else OpenStarts(pairings, other)
  {
    if pairings == [] {
      assert Close(pairings, start, end) == [];
    } else {
      var init, last := pairings[..|pairings| - 1], pairings[|pairings| - 1];
      assert pairings == init + [last];
      var closed := Close(init, start, end);
      var q := if last.start == start then last.(end := Some(end)) else last;
      CountClose(init, start, end);
      ClosePush(init, last, start, end);
      CountPush(closed, q);
      assert (closed + [q])[..|closed|] == closed;
    }
  }

  /** The open starts below `n` are the stack, each open once; nothing is known from `n` on. */
  ghost predicate OpenOnce(s: Single, n: nat) {
    && (forall i, j :: 0 <= i < j < |s.stack| ==> s.stack[i] != s.stack[j])
    && (forall i :: 0 <= i < |s.stack| ==> s.stack[i] < n && OpenStarts(s.pairings, s.stack[i]) == 1)
    && (forall a: nat :: n <= a ==> OpenStarts(s.pairings, a) == 0)
  }

  ghost predicate Counted(evs: seq<Option<Ev>>, k: Key, n: nat, s: Single) {
    && OpenOnce(s, n)
    && Orphans(s.pairings) == MaxExcess(evs, k, n)
    && |s.stack| == MaxExcess(evs, k, n) - Excess(evs, k, n)
    && Incomplete(s.pairings) == |s.stack| + Orphans(s.pairings)
  }

  lemma {:induction false} SingleCounted(evs: seq<Option<Ev>>, n: nat, k: Key)
    requires n <= |evs|
    ensures Counted(evs, k, n, SingleMatch(Project(evs, n, k)))
  {
    hide SingleStep, OpenOnce;
    if n == 0 {
      NothingCounted(evs, k);
    } else {
      SingleCounted(evs, n - 1, k);
      var es := Project(evs, n - 1, k);
      if IsOf(evs, n - 1, k) {
        var e := KeyEvent(evs[n - 1].value.ini, n - 1);
        SingleMatchPush(es, e);
        EventCounted(evs, k, n - 1, SingleMatch(es));
      } else {
        WaitCounted(evs, k, n - 1, SingleMatch(es));
      }
    }
  }

  lemma NothingCounted(evs: seq<Option<Ev>>, k: Key)
    ensures Counted(evs, k, 0, Single([], []))
  {
  }

  lemma WaitCounted(evs: seq<Option<Ev>>, k: Key, n: nat, s: Single)
    requires !IsOf(evs, n, k) && Counted(evs, k, n, s)
    ensures Counted(evs, k, n + 1, s)
  {
    MaxExcessBounds(evs, k, n, n);
  }

  lemma EventCounted(evs: seq<Option<Ev>>, k: Key, n: nat, s: Single)
    requires n < |evs| && IsOf(evs, n, k) && Counted(evs, k, n, s)
    ensures Counted(evs, k, n + 1, SingleStep(s, KeyEvent(evs[n].value.ini, n)))
  {
    if evs[n].value.ini {
      IniCounted(evs, k, n, s);
    } else if s.stack == [] {
      OrphanCounted(evs, k, n, s);
    } else {
      CloseCounted(evs, k, n, s);
    }
  }

  lemma IniCounted(evs: seq<Option<Ev>>, k: Key, n: nat, s: Single)
    requires n < |evs| && IsOf(evs, n, k) && evs[n].value.ini && Counted(evs, k, n, s)
    ensures Counted(evs, k, n + 1, Single(s.pairings + [Pairing(n, None, false)], s.stack + [n]))
  {
    CountPush(s.pairings, Pairing(n, None, false));
    OpenStartsPush(s.pairings, Pairing(n, None, false));
  }

  lemma OrphanCounted(evs: seq<Option<Ev>>, k: Key, n: nat, s: Single)
    requires n < |evs| && IsOf(evs, n, k) && !evs[n].value.ini && Counted(evs, k, n, s) && s.stack == []
    ensures Counted(evs, k, n + 1, s.(pairings := s.pairings + [Pairing(n, None, true)]))
  {
    CountPush(s.pairings, Pairing(n, None, true));
    OpenStartsPush(s.pairings, Pairing(n, None, true));
  }

  lemma CloseCounted(evs: seq<Option<Ev>>, k: Key, n: nat, s: Single)
    requires n < |evs| && IsOf(evs, n, k) && !evs[n].value.ini && Counted(evs, k, n, s) && s.stack != []
    ensures Counted(evs, k, n + 1, Single(Close(s.pairings, s.stack[|s.stack| - 1], n), s.stack[..|s.stack| - 1]))
  {
    hide Close, OpenStarts, Orphans, Incomplete;
    CountClose(s.pairings, s.stack[|s.stack| - 1], n);
  }

  lemma OpenStartsPush(pairings: seq<Pairing>, p: Pairing)
    ensures forall a ::
      OpenStarts(pairings + [p], a) == OpenStarts(pairings, a) + (if p.start == a && p.end.None? then 1 else 0)
  {
    assert (pairings + [p])[..|pairings|] == pairings;
  }

  /**
   * Per key, the orphan FINs are the largest excess of FINs over INIs in any prefix, and
   * the stages left open are #INI - #FIN plus the orphans.
   */
  lemma OrphanArithmetic(evs: seq<Option<Ev>>, k: Key)
    ensures var mine := OfKey(evs, MatchAll(evs, |evs|).pairings, k);
      && Orphans(mine) == MaxExcess(evs, k, |evs|)
      && Incomplete(mine) - Orphans(mine) == Balance(evs, k, 0, |evs|) + Orphans(mine)
  {
    MatchingProjects(evs, |evs|, k);
    SingleCounted(evs, |evs|, k);
  }

  // ---- totals over all keys ------------------------------------------------

  predicate Distinct(keys: seq<Key>) {
    forall i, j :: 0 <= i < j < |keys| ==> keys[i] != keys[j]
  }

  /** `keys` names every key of the log. */
  predicate Covers(evs: seq<Option<Ev>>, keys: seq<Key>) {
    forall i :: 0 <= i < |evs| && evs[i].Some? ==> evs[i].value.key in keys
  }

  function SumMaxExcess(evs: seq<Option<Ev>>, keys: seq<Key>): int {
    if keys == [] then 0 else MaxExcess(evs, keys[0], |evs|) + SumMaxExcess(evs, keys[1..])
  }

  function SumBalance(evs: seq<Option<Ev>>, keys: seq<Key>): int {
    if keys == [] then 0 else Balance(evs, keys[0], 0, |evs|) + SumBalance(evs, keys[1..])
  }

  type Count = seq<Pairing> -> int

  /** A count of each key's own pairings, summed. */
  function SumOver(count: Count, evs: seq<Option<Ev>>, pairings: seq<Pairing>, keys: seq<Key>): int {
    if keys == [] then 0 else count(OfKey(evs, pairings, keys[0])) + SumOver(count, evs, pairings, keys[1..])
  }

  /** `count` adds up the weights of single pairings. */
  ghost predicate Additive(count: Count, weight: Pairing -> int) {
    count([]) == 0 && forall ps, p :: count(ps + [p]) == count(ps) + weight(p)
  }

  lemma {:induction false} SumOverPush(
    count: Count, weight: Pairing -> int, evs: seq<Option<Ev>>, pairings: seq<Pairing>, p: Pairing, keys: seq<Key>)
    requires Additive(count, weight) && p.start < |evs| && evs[p.start].Some? && Distinct(keys)
    ensures SumOver(count, evs, pairings + [p], keys)
         == SumOver(count, evs, pairings, keys) + (if evs[p.start].value.key in keys then weight(p) else 0)
  {
    if keys != [] {
      SumOverPush(count, weight, evs, pairings, p, keys[1..]);
      OfKeyPush(evs, pairings, p, keys[0]);
      var k := evs[p.start].value.key;
      assert k in keys <==> k == keys[0] || k in keys[1..];
      assert keys[0] !in keys[1..];
      assert OfKey(evs, pairings, keys[0]) + [] == OfKey(evs, pairings, keys[0]);
    }
  }

  lemma {:induction false} SumOverEmpty(count: Count, weight: Pairing -> int, evs: seq<Option<Ev>>, keys: seq<Key>)
    requires Additive(count, weight)
    ensures SumOver(count, evs, [], keys) == 0
  {
    if keys != [] {
      SumOverEmpty(count, weight, evs, keys[1..]);
    }
  }

  predicate StartsKnown(evs: seq<Option<Ev>>, pairings: seq<Pairing>) {
    forall i :: 0 <= i < |pairings| ==> pairings[i].start < |evs| && evs[pairings[i].start].Some?
  }

  /** Summing per key loses and repeats nothing. */
  lemma {:induction false} SumOverIsTotal(
    count: Count, weight: Pairing -> int, evs: seq<Option<Ev>>, pairings: seq<Pairing>, keys: seq<Key>)
    requires Additive(count, weight) && Distinct(keys) && Covers(evs, keys) && StartsKnown(evs, pairings)
    ensures SumOver(count, evs, pairings, keys) == count(pairings)
    decreases |pairings|
  {
    if pairings == [] {
      SumOverEmpty(count, weight, evs, keys);
    } else {
      var init, last := pairings[..|pairings| - 1], pairings[|pairings| - 1];
      assert pairings == init + [last];
      assert evs[last.start].value.key in keys;
      SumOverIsTotal(count, weight, evs, init, keys);
      SumOverPush(count, weight, evs, init, last, keys);
    }
  }

  function OrphanCount(): Count {
    ps => Orphans(ps)
  }

  function IncompleteCount(): Count {
    ps => Incomplete(ps)
  }

  function OrphanWeight(): Pairing -> int {
    (p: Pairing) => if p.orphan then 1 else 0
  }

  function IncompleteWeight(): Pairing -> int {
    (p: Pairing) => if p.end.None? then 1 else 0
  }

  lemma CountsAdditive()
    ensures Additive(OrphanCount(), OrphanWeight())
    ensures Additive(IncompleteCount(), IncompleteWeight())
  {
    forall ps: seq<Pairing>, p: Pairing
      ensures OrphanCount()(ps + [p]) == OrphanCount()(ps) + (if p.orphan then 1 else 0)
      ensures IncompleteCount()(ps + [p]) == IncompleteCount()(ps) + (if p.end.None? then 1 else 0)
    {
      CountPush(ps, p);
    }
  }

  lemma {:induction false} SumsByKey(evs: seq<Option<Ev>>, keys: seq<Key>)
    ensures var pairings := MatchAll(evs, |evs|).pairings;
      && SumOver(OrphanCount(), evs, pairings, keys) == SumMaxExcess(evs, keys)
      && SumOver(IncompleteCount(), evs, pairings, keys) == SumBalance(evs, keys) + 2 * SumMaxExcess(evs, keys)
  {
    if keys != [] {
      SumsByKey(evs, keys[1..]);
      OrphanArithmetic(evs, keys[0]);
    }
  }

  /** How many stages are orphan FINs. */
  function OrphanFinCount(stages: seq<LifecycleStage>): nat {
    |OrphanStages(stages)|
  }

  function OrphanStages(stages: seq<LifecycleStage>): seq<LifecycleStage> {
    if stages == [] then []
    else
      var last := stages[|stages| - 1];
      OrphanStages(stages[..|stages| - 1]) + (if last.orphan then [last] else [])
  }

  /** How many stages were never completed; orphans are among them. */
  function IncompleteLifecycleCount(stages: seq<LifecycleStage>): nat {
    |IncompleteStages(stages)|
  }

  function IncompleteStages(stages: seq<LifecycleStage>): seq<LifecycleStage> {
    if stages == [] then []
    else
      var last := stages[|stages| - 1];
      IncompleteStages(stages[..|stages| - 1]) + (if !last.complete then [last] else [])
  }

  lemma {:induction false} CountsOfStages(records: seq<ParsedRecord>, pairings: seq<Pairing>)
    ensures OrphanFinCount(StagesOf(records, pairings)) == Orphans(pairings)
    ensures IncompleteLifecycleCount(StagesOf(records, pairings)) == Incomplete(pairings)
  {
    if pairings == [] {
      assert StagesOf(records, pairings) == [];
    } else {
      var init, last := pairings[..|pairings| - 1], pairings[|pairings| - 1];
      assert pairings == init + [last];
      CountsOfStages(records, init);
      StagesPush(records, init, last);
      var stages := StagesOf(records, init);
      assert (stages + [StageOf(records, last)])[..|stages|] == stages;
    }
  }

  /**
   * The two lifecycle metrics of a log: orphans summed over its keys, and #INI - #FIN
   * plus twice the orphans, because an orphan is itself an incomplete stage.
   */
  lemma LifecycleMetrics(records: seq<ParsedRecord>, keys: seq<Key>)
    requires Distinct(keys) && Covers(Events(records), keys)
    ensures var evs := Events(records);
      && OrphanFinCount(Stages(records)) == SumMaxExcess(evs, keys)
      && IncompleteLifecycleCount(Stages(records)) == SumBalance(evs, keys) + 2 * SumMaxExcess(evs, keys)
  {
    var evs := Events(records);
    var pairings := MatchAll(evs, |evs|).pairings;
    MatchingRight(evs, |evs|);
    forall i | 0 <= i < |pairings|
      ensures pairings[i].start < |evs| && evs[pairings[i].start].Some?
    {
      assert PairingRight(evs, |evs|, pairings[i]);
    }
    CountsAdditive();
    SumOverIsTotal(OrphanCount(), OrphanWeight(), evs, pairings, keys);
    SumOverIsTotal(IncompleteCount(), IncompleteWeight(), evs, pairings, keys);
    SumsByKey(evs, keys);
    CountsOfStages(records, pairings);
  }
}
