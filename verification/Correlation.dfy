/**
 * Which records correlate: the stages of a log said in terms of the fields of its
 * records, without keys.
 */
module Correlation {
  import opened Prelude
  import opened Recognisers
  import opened Lifecycle
  import opened LifecycleLaws

  // ---- when two records share a key ----------------------------------------

  predicate SameLetter(a: char, b: char) {
    || a == b
    || ('A' <= a <= 'Z' && b as int == a as int + 32)
    || ('A' <= b <= 'Z' && a as int == b as int + 32)
  }

  /** Equal but for the case of ASCII letters. */
  predicate SameWord(a: string, b: string) {
    |a| == |b| && forall i :: 0 <= i < |a| ==> SameLetter(a[i], b[i])
  }

  lemma LowerIgnoresCase(a: string, b: string)
    ensures Lower(a) == Lower(b) <==> SameWord(a, b)
  {
    if Lower(a) == Lower(b) {
      assert |Lower(a)| == |a| && |Lower(b)| == |b|;
      forall i | 0 <= i < |a|
        ensures SameLetter(a[i], b[i])
      {
        assert Lower(a)[i] == Lower(b)[i];
      }
    }
  }

  /** `iteration` is the one announced last up to record `i`, or absent when there is none. */
  ghost predicate Announced(records: seq<ParsedRecord>, i: nat, iteration: Option<int>) {
    match iteration
    case Some(_) => exists j :: LastAnnounced(records, i + 1, j) && records[j].iteration == iteration
    case None => forall j :: j <= i ==> !Announces(records, j)
  }

  ghost predicate SameIteration(records: seq<ParsedRecord>, i: nat, j: nat) {
    exists iteration :: Announced(records, i, iteration) && Announced(records, j, iteration)
  }

  lemma {:induction false} LastExists(records: seq<ParsedRecord>, n: nat) returns (j: int)
    requires n <= |records| && exists l :: l < n && Announces(records, l)
    ensures LastAnnounced(records, n, j)
  {
    if Announces(records, n - 1) {
      j := n - 1;
    } else {
      var l :| l < n && Announces(records, l);
      assert l < n - 1;
      j := LastExists(records, n - 1);
    }
  }

  lemma ContextIsAnnounced(records: seq<ParsedRecord>, i: nat, iteration: Option<int>)
    requires i < |records|
    ensures Announced(records, i, iteration) <==> Context(records, i + 1) == iteration
  {
    ContextIsLast(records, i + 1);
    if l :| l <= i && Announces(records, l) {
      var j := LastExists(records, i + 1);
      assert Context(records, i + 1) == records[j].iteration;
    }
  }

  /** A FIN or INI of a TB_LOG record that names its component. */
  predicate IsEvent(records: seq<ParsedRecord>, i: nat, marker: Marker) {
    i < |records| && records[i].isTbLog && records[i].marker == Some(marker) && records[i].component.Some?
  }

  predicate AnyEvent(records: seq<ParsedRecord>, i: nat) {
    IsEvent(records, i, Ini) || IsEvent(records, i, Fin)
  }

  /** Same component but for case, same job, same entity, same iteration announced last. */
  ghost predicate Correlate(records: seq<ParsedRecord>, i: nat, j: nat) {
    && AnyEvent(records, i) && AnyEvent(records, j)
    && SameWord(records[i].component.value, records[j].component.value)
    && records[i].jobId == records[j].jobId
    && records[i].entity == records[j].entity
    && SameIteration(records, i, j)
  }

  /** Which records are events, and of which kind. */
  lemma EventsExactly(records: seq<ParsedRecord>, i: nat)
    requires i < |records|
    ensures Events(records)[i].Some? <==> AnyEvent(records, i)
    ensures Events(records)[i].Some? ==> (Events(records)[i].value.ini <==> IsEvent(records, i, Ini))
  {
  }

  lemma IterationsAgree(records: seq<ParsedRecord>, i: nat, j: nat)
    requires i < |records| && j < |records|
    ensures SameIteration(records, i, j) <==> Context(records, i + 1) == Context(records, j + 1)
  {
    var c := Context(records, i + 1);
    ContextIsAnnounced(records, i, c);
    ContextIsAnnounced(records, j, c);
    if SameIteration(records, i, j) {
      var iteration :| Announced(records, i, iteration) && Announced(records, j, iteration);
      ContextIsAnnounced(records, i, iteration);
      ContextIsAnnounced(records, j, iteration);
    }
  }

  /** A record with an iteration announces it, so its key uses what was announced last. */
  lemma KeyIteration(records: seq<ParsedRecord>, i: nat)
    requires i < |records| && Events(records)[i].Some?
    ensures Events(records)[i].value.key.iteration == Context(records, i + 1)
  {
  }

  /** Two events have the same key exactly when their records correlate. */
  lemma KeysExactly(records: seq<ParsedRecord>, i: nat, j: nat)
    requires AnyEvent(records, i) && AnyEvent(records, j)
    ensures Events(records)[i].Some? && Events(records)[j].Some?
    ensures Events(records)[i].value.key == Events(records)[j].value.key <==> Correlate(records, i, j)
  {
    EventsExactly(records, i);
    EventsExactly(records, j);
    KeyIteration(records, i);
    KeyIteration(records, j);
    IterationsAgree(records, i, j);
    LowerIgnoresCase(records[i].component.value, records[j].component.value);
  }

  // ---- the stages of a log -------------------------------------------------

  /** A stage shows the fields of the record that opened it. */
  lemma StagesShowTheirRecords(records: seq<ParsedRecord>, i: nat)
    requires i < |Stages(records)|
    ensures var stage := Stages(records)[i];
      && AnyEvent(records, stage.start)
      && stage.component == records[stage.start].component.value
      && stage.jobId == records[stage.start].jobId
      && stage.entity == records[stage.start].entity
      && stage.iteration == records[stage.start].iteration
      && (stage.complete <==> stage.end.Some?)
      && (stage.orphan ==> IsEvent(records, stage.start, Fin) && !stage.complete)
      && (!stage.orphan ==> IsEvent(records, stage.start, Ini))
  {
    hide Closes;
    var evs, stages := Events(records), Stages(records);
    StagesAreBalanced(records);
    assert Starts(evs, stages[i].start);
    EventsExactly(records, stages[i].start);
    StageFields(records, MatchAll(evs, |records|).pairings[i]);
    if stages[i].orphan {
      OrphanIsOpen(evs, stages[i].start);
    }
  }

  lemma StageFields(records: seq<ParsedRecord>, p: Pairing)
    requires p.start < |records| && records[p.start].component.Some?
    ensures var stage, r := StageOf(records, p), records[p.start];
      && stage.start == p.start && stage.component == r.component.value && stage.jobId == r.jobId
      && stage.entity == r.entity && stage.iteration == r.iteration
      && (stage.complete <==> stage.end.Some?)
  {
  }

  lemma OrphanIsOpen(evs: seq<Option<Ev>>, a: nat)
    requires OrphanFin(evs, a)
    ensures forall b: nat :: !Closes(evs, a, b)
  {
  }

  /** A complete stage runs from an INI to a later FIN whose records correlate. */
  lemma StagesCorrelate(records: seq<ParsedRecord>, i: nat)
    requires i < |Stages(records)| && Stages(records)[i].complete
    ensures var a, b := Stages(records)[i].start, Stages(records)[i].end.GetOr(0);
      && a < b && IsEvent(records, a, Ini) && IsEvent(records, b, Fin) && Correlate(records, a, b)
  {
    var evs, stages := Events(records), Stages(records);
    var a, b := stages[i].start, stages[i].end.value;
    StagesAreBalanced(records);
    assert Closes(evs, a, b);
    ClosingKey(evs, a, b);
    EventsExactly(records, a);
    EventsExactly(records, b);
    KeysExactly(records, a, b);
  }

  /** Is stage `i` a correlating opening before record `b` that no record before `b` has closed? */
  ghost predicate OpenFor(records: seq<ParsedRecord>, i: nat, b: nat) {
    && i < |Stages(records)|
    && var stage := Stages(records)[i];
      && stage.start < b && !stage.orphan && Correlate(records, stage.start, b)
      && (stage.end.Some? ==> stage.end.value >= b)
  }

  lemma OpenIsOnStack(records: seq<ParsedRecord>, i: nat, b: nat)
    requires i < |Stages(records)| && b < |records| && AnyEvent(records, b)
    ensures OpenFor(records, i, b) <==>
      !Stages(records)[i].orphan &&
      Stages(records)[i].start in StackOf(MatchAll(Events(records), b).stacks, Events(records)[b].value.key)
  {
    var evs, stage := Events(records), Stages(records)[i];
    StagesAreBalanced(records);
    StagesShowTheirRecords(records, i);
    EventsExactly(records, b);
    var k := evs[b].value.key;
    var stack := StackOf(MatchAll(evs, b).stacks, k);
    StacksRight(evs, b, k);
    EventsExactly(records, stage.start);
    KeysExactly(records, stage.start, b);
    if stage.start in stack {
      var j :| 0 <= j < |stack| && stack[j] == stage.start;
      assert OpenLevel(evs, k, b, stack, j);
      OpenHasNotEnded(evs, k, stage.start, b);
    }
    if OpenFor(records, i, b) {
      assert IsOf(evs, stage.start, k);
      assert !ClosedBefore(evs, stage.start, b);
    }
  }

  lemma OpenHasNotEnded(evs: seq<Option<Ev>>, k: Key, a: nat, n: nat)
    requires IsOf(evs, a, k) && OpenUntil(evs, k, a, n)
    ensures forall b: nat :: Closes(evs, a, b) ==> b >= n
  {
    forall b: nat | Closes(evs, a, b)
      ensures b >= n
    {
      var after: nat := b + 1;
      assert after <= n ==> Balance(evs, k, a, after) >= 1;
    }
  }

  /** A FIN is recorded as an orphan exactly when no correlating opening is open before it. */
  lemma OrphansExactly(records: seq<ParsedRecord>, b: nat)
    requires IsEvent(records, b, Fin)
    ensures (exists i :: 0 <= i < |Stages(records)| && Stages(records)[i].start == b && Stages(records)[i].orphan) <==>
      forall i: nat :: !OpenFor(records, i, b)
  {
    hide Stages, Correlate, Closes;
    var evs := Events(records);
    EventsExactly(records, b);
    var k := evs[b].value.key;
    var stack := StackOf(MatchAll(evs, b).stacks, k);
    StacksRight(evs, b, k);
    FinIsOrphan(evs, b, stack);
    OrphanStage(records, b);
    if stack != [] {
      assert OpenLevel(evs, k, b, stack, 0);
      var i := IniStage(records, stack[0]);
      OpenIsOnStack(records, i, b);
    } else {
      forall i: nat
        ensures !OpenFor(records, i, b)
      {
        if i < |Stages(records)| {
          OpenIsOnStack(records, i, b);
        }
      }
    }
  }

  lemma OrphanStage(records: seq<ParsedRecord>, b: nat)
    requires IsEvent(records, b, Fin)
    ensures (exists i :: 0 <= i < |Stages(records)| && Stages(records)[i].start == b && Stages(records)[i].orphan) <==>
      OrphanFin(Events(records), b)
  {
    StagesAreBalanced(records);
    EventsExactly(records, b);
    if OrphanFin(Events(records), b) {
      assert Starts(Events(records), b);
    }
  }

  lemma IniStage(records: seq<ParsedRecord>, a: nat) returns (i: nat)
    requires IsEvent(records, a, Ini)
    ensures i < |Stages(records)| && Stages(records)[i].start == a && !Stages(records)[i].orphan
  {
    StagesAreBalanced(records);
    EventsExactly(records, a);
    assert Starts(Events(records), a);
    i :| 0 <= i < |Stages(records)| && Stages(records)[i].start == a;
  }

  /** Open starts lie on the stack in their order. */
  lemma LevelsAscend(evs: seq<Option<Ev>>, k: Key, n: nat, stack: seq<nat>, p: nat, q: nat)
    requires p < q < |stack| && OpenLevel(evs, k, n, stack, p) && OpenLevel(evs, k, n, stack, q)
    ensures stack[p] < stack[q]
  {
    var a, c := stack[p], stack[q];
    if c < a {
      BalanceSplits(evs, k, c, a, n);
    }
  }

  lemma TopIsLatest(evs: seq<Option<Ev>>, k: Key, n: nat, stack: seq<nat>, a: nat)
    requires StackRight(evs, k, n, stack) && a in stack
    ensures a <= stack[|stack| - 1]
  {
    var p :| 0 <= p < |stack| && stack[p] == a;
    assert OpenLevel(evs, k, n, stack, p) && OpenLevel(evs, k, n, stack, |stack| - 1);
    if p < |stack| - 1 {
      LevelsAscend(evs, k, n, stack, p, |stack| - 1);
    }
  }

  /** Stage `i` is open for `b`, and no stage that is open for `b` started later. */
  ghost predicate LatestFor(records: seq<ParsedRecord>, i: nat, b: nat) {
    && OpenFor(records, i, b)
    && forall j: nat :: OpenFor(records, j, b) ==> Stages(records)[j].start <= Stages(records)[i].start
  }

  /** A FIN closes exactly the latest of the correlating stages that are open before it. */
  lemma FinClosesLatest(records: seq<ParsedRecord>, i: nat, b: nat)
    requires i < |Stages(records)| && IsEvent(records, b, Fin)
    ensures Stages(records)[i].end == Some(b) <==> LatestFor(records, i, b)
  {
    hide Correlate, Closes, OpenLevel;
    var evs, stages := Events(records), Stages(records);
    EventsExactly(records, b);
    var k := evs[b].value.key;
    var stack := StackOf(MatchAll(evs, b).stacks, k);
    StacksRight(evs, b, k);
    StackPops(evs, k, b, stack);
    forall j: nat | j < |stages|
      ensures OpenFor(records, j, b) <==> !stages[j].orphan && stages[j].start in stack
    {
      OpenIsOnStack(records, j, b);
    }
    forall a | a in stack
      ensures a <= stack[|stack| - 1]
    {
      TopIsLatest(evs, k, b, stack, a);
    }
    ClosedByFin(records, i, b, stack);
    if stack != [] {
      var top := TopStage(records, b, stack);
    }
  }

  /** The stage that a FIN closes is the one on top of the stack. */
  lemma ClosedByFin(records: seq<ParsedRecord>, i: nat, b: nat, stack: seq<nat>)
    requires i < |Stages(records)| && IsEvent(records, b, Fin) && Events(records)[b].Some?
    requires stack != [] ==> Closes(Events(records), stack[|stack| - 1], b)
    requires stack == StackOf(MatchAll(Events(records), b).stacks, Events(records)[b].value.key)
    ensures Stages(records)[i].end == Some(b) <==>
      stack != [] && !Stages(records)[i].orphan && Stages(records)[i].start == stack[|stack| - 1]
  {
    var evs, stage := Events(records), Stages(records)[i];
    StagesAreBalanced(records);
    EventsExactly(records, b);
    StacksRight(evs, b, evs[b].value.key);
    FinIsOrphan(evs, b, stack);
    if stage.end == Some(b) {
      assert Closes(evs, stage.start, b);
      OneOpener(evs, stage.start, stack[|stack| - 1], b);
    }
  }

  lemma TopStage(records: seq<ParsedRecord>, b: nat, stack: seq<nat>) returns (i: nat)
    requires b < |records| && Events(records)[b].Some? && stack != []
    requires StackRight(Events(records), Events(records)[b].value.key, b, stack)
    ensures i < |Stages(records)| && Stages(records)[i].start == stack[|stack| - 1] && !Stages(records)[i].orphan
  {
    assert OpenLevel(Events(records), Events(records)[b].value.key, b, stack, |stack| - 1);
    EventsExactly(records, stack[|stack| - 1]);
    i := IniStage(records, stack[|stack| - 1]);
  }
}
