/**
 * When does the stack matcher agree with the first-in first-out pairing that the
 * documentation describes? Exactly when no FIN comes while two stages of its key are open.
 */
module PairingOrder {
  import opened Prelude
  import opened Lifecycle
  import opened LifecycleLaws

  // ---- a queue instead of the stack ----------------------------------------

  /** A FIN closes the oldest open stage. */
  function QueueStep(s: Single, e: KeyEvent): Single {
    if e.ini then Single(s.pairings + [Pairing(e.at, None, false)], s.stack + [e.at])
    else if s.stack == [] then s.(pairings := s.pairings + [Pairing(e.at, None, true)])
    else Single(Close(s.pairings, s.stack[0], e.at), s.stack[1..])
  }

  function QueueMatch(es: seq<KeyEvent>): Single {
    if es == [] then Single([], []) else QueueStep(QueueMatch(es[..|es| - 1]), es[|es| - 1])
  }

  predicate Rising(es: seq<KeyEvent>) {
    forall i, j :: 0 <= i < j < |es| ==> es[i].at < es[j].at
  }

  /** No FIN arrives while two or more stages are open. */
  predicate NeverNested(es: seq<KeyEvent>) {
    forall i :: 0 <= i < |es| && !es[i].ini ==> |SingleMatch(es[..i]).stack| <= 1
  }

  lemma NeverNestedPush(es: seq<KeyEvent>, e: KeyEvent)
    ensures NeverNested(es + [e]) <==> NeverNested(es) && (e.ini || |SingleMatch(es).stack| <= 1)
  {
    var all := es + [e];
    assert all[..|es|] == es;
    assert forall i :: 0 <= i < |es| ==> all[..i] == es[..i] && all[i] == es[i];
    assert all[|es|] == e;
  }

  lemma NothingNested()
    ensures NeverNested([])
  {
  }

  lemma {:induction false} SameWhenNeverNested(es: seq<KeyEvent>)
    requires NeverNested(es)
    ensures QueueMatch(es) == SingleMatch(es)
  {
    if es != [] {
      var init, e := es[..|es| - 1], es[|es| - 1];
      assert es == init + [e];
      NeverNestedPush(init, e);
      SameWhenNeverNested(init);
    }
  }

  // ---- otherwise they part, for good ---------------------------------------

  /** Open starts ascend below `n` and have their pairing; ends lie below `n`. */
  ghost predicate Shaped(s: Single, n: nat) {
    && (forall i, j :: 0 <= i < j < |s.stack| ==> s.stack[i] < s.stack[j])
    && (forall i :: 0 <= i < |s.stack| ==> s.stack[i] < n && StartIn(s.pairings, s.stack[i]))
    && (forall i :: 0 <= i < |s.pairings| && s.pairings[i].end.Some? ==> s.pairings[i].end.value < n)
  }

  lemma StepShaped(s: Single, e: KeyEvent, n: nat)
    requires Shaped(s, n) && n <= e.at
    ensures Shaped(SingleStep(s, e), e.at + 1)
  {
    var t := SingleStep(s, e);
    forall i | 0 <= i < |t.stack|
      ensures StartIn(t.pairings, t.stack[i])
    {
      if e.ini {
        StartInPush(s.pairings, Pairing(e.at, None, false), t.stack[i]);
      } else {
        var k :| 0 <= k < |s.pairings| && s.pairings[k].start == s.stack[i];
        assert t.pairings[k].start == t.stack[i];
      }
    }
  }

  lemma {:induction false} SingleShaped(es: seq<KeyEvent>, n: nat)
    requires Rising(es) && forall i :: 0 <= i < |es| ==> es[i].at < n
    ensures Shaped(SingleMatch(es), n)
  {
    if es != [] {
      var init, e := es[..|es| - 1], es[|es| - 1];
      SingleShaped(init, e.at);
      StepShaped(SingleMatch(init), e, e.at);
    }
  }

  ghost predicate EndsAt(pairings: seq<Pairing>, start: nat, end: nat) {
    exists k :: 0 <= k < |pairings| && pairings[k].start == start && pairings[k].end == Some(end)
  }

  /** The queue has closed `x` at `end`, the stack has not and never will. */
  ghost predicate Apart(q: Single, s: Single, x: nat, end: nat) {
    EndsAt(q.pairings, x, end) && x !in q.stack && !EndsAt(s.pairings, x, end)
  }

  lemma FirstParting(s: Single, e: KeyEvent)
    requires Shaped(s, e.at) && !e.ini && |s.stack| >= 2
    ensures Apart(QueueStep(s, e), SingleStep(s, e), s.stack[0], e.at) && s.stack[0] < e.at
  {
    var x := s.stack[0];
    var k :| 0 <= k < |s.pairings| && s.pairings[k].start == x;
    assert QueueStep(s, e).pairings[k].end == Some(e.at);
  }

  lemma StayApart(q: Single, s: Single, e: KeyEvent, x: nat, end: nat)
    requires Apart(q, s, x, end) && x < end < e.at
    ensures Apart(QueueStep(q, e), SingleStep(s, e), x, end)
  {
    var k :| 0 <= k < |q.pairings| && q.pairings[k].start == x && q.pairings[k].end == Some(end);
    assert QueueStep(q, e).pairings[k] == q.pairings[k];
    var t := SingleStep(s, e);
    forall i | 0 <= i < |t.pairings| && t.pairings[i].start == x
      ensures t.pairings[i].end != Some(end)
    {
      assert i < |s.pairings| && s.pairings[i].start == x;
    }
  }

  lemma RisingInit(es: seq<KeyEvent>)
    requires Rising(es) && es != []
    ensures var init, e := es[..|es| - 1], es[|es| - 1];
      Rising(init) && forall i :: 0 <= i < |init| ==> init[i].at < e.at
  {
  }

  lemma {:induction false} PartWhenNested(es: seq<KeyEvent>) returns (x: nat, end: nat)
    requires Rising(es) && !NeverNested(es)
    ensures Apart(QueueMatch(es), SingleMatch(es), x, end)
    ensures x < end <= es[|es| - 1].at
  {
    hide QueueStep, SingleStep, NeverNested, Apart, Shaped, Rising;
    NothingNested();
    var init, e := es[..|es| - 1], es[|es| - 1];
    assert es == init + [e];
    RisingInit(es);
    NeverNestedPush(init, e);
    if NeverNested(init) {
      SameWhenNeverNested(init);
      SingleShaped(init, e.at);
      FirstParting(SingleMatch(init), e);
      x, end := SingleMatch(init).stack[0], e.at;
    } else {
      x, end := PartWhenNested(init);
      StayApart(QueueMatch(init), SingleMatch(init), e, x, end);
    }
  }

  /** Stack and queue give the same stages exactly when no FIN meets two open ones. */
  lemma QueueAgreesExactly(es: seq<KeyEvent>)
    requires Rising(es)
    ensures QueueMatch(es).pairings == SingleMatch(es).pairings <==> NeverNested(es)
  {
    if NeverNested(es) {
      SameWhenNeverNested(es);
    } else {
      var x, end := PartWhenNested(es);
    }
  }

  // ---- the same on a whole log, by counting --------------------------------

  /** Before each of the first `n` events that is a FIN of `k`, at most one stage of `k` is open. */
  predicate FinsAlone(evs: seq<Option<Ev>>, k: Key, n: nat)
    requires n <= |evs|
  {
    forall i: nat :: i < n && IsOf(evs, i, k) && !evs[i].value.ini ==> OpenCount(evs, k, i) <= 1
  }

  /** Open stages of `k`, from the counts of INI and FIN events alone. */
  function OpenCount(evs: seq<Option<Ev>>, k: Key, n: nat): int {
    MaxExcess(evs, k, n) - Excess(evs, k, n)
  }

  lemma {:induction false} ProjectRises(evs: seq<Option<Ev>>, n: nat, k: Key)
    requires n <= |evs|
    ensures Rising(Project(evs, n, k))
    ensures forall i :: 0 <= i < |Project(evs, n, k)| ==> Project(evs, n, k)[i].at < n
  {
    if n > 0 {
      ProjectRises(evs, n - 1, k);
    }
  }

  lemma SingleStackCounted(evs: seq<Option<Ev>>, n: nat, k: Key)
    requires n <= |evs|
    ensures |SingleMatch(Project(evs, n, k)).stack| == OpenCount(evs, k, n)
  {
    SingleCounted(evs, n, k);
  }

  lemma {:induction false} FinsAloneIsNeverNested(evs: seq<Option<Ev>>, n: nat, k: Key)
    requires n <= |evs|
    ensures FinsAlone(evs, k, n) <==> NeverNested(Project(evs, n, k))
  {
    hide OpenCount, NeverNested, SingleMatch;
    if n == 0 {
      assert NeverNested([]) by { NothingNested(); }
    } else {
      FinsAloneIsNeverNested(evs, n - 1, k);
      if IsOf(evs, n - 1, k) {
        NeverNestedPush(Project(evs, n - 1, k), KeyEvent(evs[n - 1].value.ini, n - 1));
        SingleStackCounted(evs, n - 1, k);
      }
    }
  }

  /** A key's stages are those of the documented queue exactly when its FINs come alone. */
  lemma FifoExactly(evs: seq<Option<Ev>>, k: Key)
    ensures OfKey(evs, MatchAll(evs, |evs|).pairings, k) == QueueMatch(Project(evs, |evs|, k)).pairings <==>
      FinsAlone(evs, k, |evs|)
  {
    MatchingProjects(evs, |evs|, k);
    ProjectRises(evs, |evs|, k);
    FinsAloneIsNeverNested(evs, |evs|, k);
    QueueAgreesExactly(Project(evs, |evs|, k));
  }

  // ---- the same on the built stages, by their order ------------------------

  predicate SameKey(evs: seq<Option<Ev>>, a: nat, b: nat) {
    a < |evs| && b < |evs| && evs[a].Some? && evs[b].Some? && evs[a].value.key == evs[b].value.key
  }

  /** Of two opened stages of one key, the earlier one also ends earlier. */
  predicate FirstInFirstOut(evs: seq<Option<Ev>>, stages: seq<LifecycleStage>) {
    forall i, j :: 0 <= i < j < |stages| && SameKey(evs, stages[i].start, stages[j].start) ==>
      (!stages[i].orphan && stages[j].end.Some? ==>
        stages[i].end.Some? && stages[i].end.value < stages[j].end.value)
  }

  lemma StackCounted(evs: seq<Option<Ev>>, n: nat, k: Key)
    requires n <= |evs|
    ensures |StackOf(MatchAll(evs, n).stacks, k)| == OpenCount(evs, k, n)
  {
    MatchingProjects(evs, n, k);
    SingleStackCounted(evs, n, k);
  }

  /** A FIN that comes alone closes an INI only after every earlier one of its key. */
  lemma AloneClosesInOrder(evs: seq<Option<Ev>>, a: nat, c: nat, d: nat)
    requires Closes(evs, c, d) && a < c && SameKey(evs, a, c) && evs[a].value.ini
    requires OpenCount(evs, evs[c].value.key, d) <= 1
    ensures ClosedBefore(evs, a, d)
  {
    var k := evs[c].value.key;
    var stack := StackOf(MatchAll(evs, d).stacks, k);
    StackCounted(evs, d, k);
    StacksRight(evs, d, k);
    if ClosedBefore(evs, c, d) {
      NotClosedAgain(evs, c, d);
    }
    assert c in stack;
    assert stack == [c];
  }

  /** A FIN that meets two open stages closes the later and leaves the earlier open. */
  lemma CrowdedClosesLatest(evs: seq<Option<Ev>>, d: nat) returns (a: nat, c: nat)
    requires d < |evs| && evs[d].Some? && !evs[d].value.ini && OpenCount(evs, evs[d].value.key, d) >= 2
    ensures a < c && SameKey(evs, a, c) && evs[a].value.ini && evs[c].value.ini
    ensures Closes(evs, c, d) && !ClosedBefore(evs, a, d) && !Closes(evs, a, d)
  {
    var k := evs[d].value.key;
    var stack := StackOf(MatchAll(evs, d).stacks, k);
    StackCounted(evs, d, k);
    StacksRight(evs, d, k);
    StackPops(evs, k, d, stack);
    a, c := stack[|stack| - 2], stack[|stack| - 1];
    assert OpenLevel(evs, k, d, stack, |stack| - 2) && OpenLevel(evs, k, d, stack, |stack| - 1);
    OpensLater(evs, k, d, stack);
    if Closes(evs, a, d) {
      OneOpener(evs, a, c, d);
    }
  }

  /** The upper of the two topmost open starts is the later one. */
  lemma OpensLater(evs: seq<Option<Ev>>, k: Key, n: nat, stack: seq<nat>)
    requires |stack| >= 2
    requires OpenLevel(evs, k, n, stack, |stack| - 2) && OpenLevel(evs, k, n, stack, |stack| - 1)
    ensures stack[|stack| - 2] < stack[|stack| - 1]
  {
    var a, c := stack[|stack| - 2], stack[|stack| - 1];
    if c < a {
      BalanceSplits(evs, k, c, a, n);
    }
  }

  /** The stages of a log are first-in first-out, key by key, exactly when every FIN comes alone. */
  lemma InOrderExactly(records: seq<ParsedRecord>)
    ensures FirstInFirstOut(Events(records), Stages(records)) <==>
      forall k :: FinsAlone(Events(records), k, |records|)
  {
    var evs, stages := Events(records), Stages(records);
    StagesAreBalanced(records);
    if forall k :: FinsAlone(evs, k, |records|) {
      AloneIsInOrder(records);
    } else {
      var k :| !FinsAlone(evs, k, |records|);
      CrowdedIsOutOfOrder(records, k);
    }
  }

  lemma AloneIsInOrder(records: seq<ParsedRecord>)
    requires forall k :: FinsAlone(Events(records), k, |records|)
    ensures FirstInFirstOut(Events(records), Stages(records))
  {
    var evs, stages := Events(records), Stages(records);
    StagesAreBalanced(records);
    forall i, j | 0 <= i < j < |stages| && SameKey(evs, stages[i].start, stages[j].start)
                  && !stages[i].orphan && stages[j].end.Some?
      ensures stages[i].end.Some? && stages[i].end.value < stages[j].end.value
    {
      var a, c, d := stages[i].start, stages[j].start, stages[j].end.value;
      assert Starts(evs, a);
      ClosingKey(evs, c, d);
      assert FinsAlone(evs, evs[c].value.key, |records|);
      AloneClosesInOrder(evs, a, c, d);
      var b: nat :| b < d && Closes(evs, a, b);
      assert stages[i].end == Some(b);
    }
  }

  /** The stage that an INI opens. */
  lemma StageOfIni(records: seq<ParsedRecord>, a: nat) returns (i: nat)
    requires a < |records| && Events(records)[a].Some? && Events(records)[a].value.ini
    ensures var stages := Stages(records);
      && i < |stages| && stages[i].start == a && !stages[i].orphan
      && forall b: nat :: stages[i].end == Some(b) <==> Closes(Events(records), a, b)
  {
    var evs, stages := Events(records), Stages(records);
    StagesAreBalanced(records);
    assert Starts(evs, a);
    i :| 0 <= i < |stages| && stages[i].start == a;
    assert !OrphanFin(evs, a);
  }

  lemma StartsInOrder(records: seq<ParsedRecord>, i: nat, j: nat)
    requires i < |Stages(records)| && j < |Stages(records)|
    requires Stages(records)[i].start < Stages(records)[j].start
    ensures i < j
  {
    StagesAreBalanced(records);
  }

  lemma CrowdedIsOutOfOrder(records: seq<ParsedRecord>, k: Key)
    requires !FinsAlone(Events(records), k, |records|)
    ensures !FirstInFirstOut(Events(records), Stages(records))
  {
    hide Stages, Closes, OpenCount, IsOf;
    var evs, stages := Events(records), Stages(records);
    var d := CrowdedFin(evs, k, |records|);
    var a, c := CrowdedClosesLatest(evs, d);
    var i := StageOfIni(records, a);
    var j := StageOfIni(records, c);
    StartsInOrder(records, i, j);
    assert stages[j].end == Some(d);
    forall b: nat | stages[i].end == Some(b)
      ensures b >= d
    {
      assert Closes(evs, a, b);
    }
  }

  lemma CrowdedFin(evs: seq<Option<Ev>>, k: Key, n: nat) returns (d: nat)
    requires n <= |evs| && !FinsAlone(evs, k, n)
    ensures d < n && evs[d].Some? && !evs[d].value.ini && OpenCount(evs, evs[d].value.key, d) >= 2
  {
    d :| d < n && IsOf(evs, d, k) && !evs[d].value.ini && OpenCount(evs, k, d) > 1;
  }

  /** Two records that open and one that closes: the one opened last is closed, the first stays open. */
  lemma LastOpenedIsClosed(r: ParsedRecord)
    requires r.isTbLog && r.component.Some?
    ensures var stages := Stages([r.(marker := Some(Ini)), r.(marker := Some(Ini)), r.(marker := Some(Fin))]);
      |stages| == 2 && stages[0].start == 0 && stages[0].end == None && stages[1].start == 1 && stages[1].end == Some(2)
  {
    var records := [r.(marker := Some(Ini)), r.(marker := Some(Ini)), r.(marker := Some(Fin))];
    var evs := Events(records);
    var key := EventAt(records, 0).value.key;
    SameContext(records, r);
    assert evs == [Some(Ev(key, true)), Some(Ev(key, true)), Some(Ev(key, false))];
    var one, two := MatchAll(evs, 1), MatchAll(evs, 2);
    assert MatchAll(evs, 0) == Matching([], map[]);
    assert one.pairings == [Pairing(0, None, false)] && StackOf(one.stacks, key) == [0];
    assert two.pairings == [Pairing(0, None, false), Pairing(1, None, false)] && StackOf(two.stacks, key) == [0, 1];
  }

  lemma SameContext(records: seq<ParsedRecord>, r: ParsedRecord)
    requires |records| == 3 && forall i :: 0 <= i < 3 ==> records[i].isTbLog && records[i].iteration == r.iteration
    ensures Context(records, 1) == Context(records, 2) == Context(records, 3) == r.iteration
  {
    assert Context(records, 0) == None;
    assert Context(records, 1) == r.iteration;
    assert Context(records, 2) == r.iteration;
  }
}
