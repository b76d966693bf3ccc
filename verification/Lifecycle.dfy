/**
 * INI/FIN correlation (src/sassessment/legacy_logs/lifecycle.py): one stack of open
 * stages per correlation key.
 */
module Lifecycle {
  import opened Prelude
  import opened Recognisers

  datatype JobId = NoJob | JobNumber(n: int) | JobText(text: string)

  datatype Marker = Ini | Fin | OtherMarker

  /** The fields of a parsed record that correlation reads; its id is its position. */
  datatype ParsedRecord = ParsedRecord(
    isTbLog: bool, component: Option<string>, jobId: JobId, entity: Option<int>, iteration: Option<int>,
    marker: Option<Marker>)

  datatype Key = Key(component: string, jobId: JobId, entity: Option<int>, iteration: Option<int>)

  datatype LifecycleStage = LifecycleStage(
    component: string, jobId: JobId, iteration: Option<int>, entity: Option<int>,
    start: nat, end: Option<nat>, complete: bool, orphan: bool)

  // ---- correlation keys ----------------------------------------------------

  /** The last iteration any of the first `n` TB_LOG records announced. */
  function Context(records: seq<ParsedRecord>, n: nat): Option<int>
    requires n <= |records|
  {
    if n == 0 then None
    else
      var r := records[n - 1];
      if r.isTbLog && r.iteration.Some? then r.iteration else Context(records, n - 1)
  }

  /** An absent iteration, and iteration 0, fall back to the context. */
  function CorrelationKey(r: ParsedRecord, context: Option<int>): Option<Key> {
    if r.component.None? then None
    else Some(Key(Lower(r.component.value), r.jobId, r.entity,
                  if r.iteration.Some? && r.iteration.value != 0 then r.iteration else context))
  }

  datatype Ev = Ev(key: Key, ini: bool)

  /** What record `i` means to its key, if anything. */
  function EventAt(records: seq<ParsedRecord>, i: nat): Option<Ev>
    requires i < |records|
  {
    var r := records[i];
    if !r.isTbLog || (r.marker != Some(Ini) && r.marker != Some(Fin)) then None
    else
      var key := CorrelationKey(r, Context(records, i + 1));
      if key.None? then None else Some(Ev(key.value, r.marker == Some(Ini)))
  }

  predicate Announces(records: seq<ParsedRecord>, j: int) {
    0 <= j < |records| && records[j].isTbLog && records[j].iteration.Some?
  }

  /** Is record `j` the last one before `n` that announces an iteration? */
  predicate LastAnnounced(records: seq<ParsedRecord>, n: int, j: int) {
    j < n && Announces(records, j) && forall l :: j < l < n ==> !Announces(records, l)
  }

  lemma {:induction false} ContextIsLast(records: seq<ParsedRecord>, n: nat)
    requires n <= |records|
    ensures forall j :: LastAnnounced(records, n, j) ==> Context(records, n) == records[j].iteration
    ensures (forall j :: j < n ==> !Announces(records, j)) ==> Context(records, n) == None
  {
    if n > 0 && !Announces(records, n - 1) {
      ContextIsLast(records, n - 1);
      forall j | LastAnnounced(records, n, j)
        ensures LastAnnounced(records, n - 1, j)
      {
      }
    }
  }

  /**
   * The iteration of a correlation key is the one announced last, in the record itself or
   * before it; an announced iteration 0 counts like any other.
   */
  lemma KeyUsesContext(records: seq<ParsedRecord>, i: nat)
    requires i < |records| && EventAt(records, i).Some?
    ensures var iteration := EventAt(records, i).value.key.iteration;
      && (forall j :: LastAnnounced(records, i + 1, j) ==> iteration == records[j].iteration)
      && ((forall j :: j <= i ==> !Announces(records, j)) ==> iteration == None)
  {
    ContextIsLast(records, i + 1);
  }

  // ---- matching ------------------------------------------------------------

  /** A stage as positions: its opening record, its closing one, or an orphan FIN. */
  datatype Pairing = Pairing(start: nat, end: Option<nat>, orphan: bool)

  type Stacks = map<Key, seq<nat>>

  function StackOf(stacks: Stacks, key: Key): seq<nat> {
    if key in stacks then stacks[key] else []
  }

  datatype Matching = Matching(pairings: seq<Pairing>, stacks: Stacks)

  function Close(pairings: seq<Pairing>, start: nat, end: nat): seq<Pairing> {
    seq(|pairings|, i requires 0 <= i < |pairings| =>
      if pairings[i].start == start then pairings[i].(end := Some(end)) else pairings[i])
  }

  function MatchStep(m: Matching, e: Ev, at: nat): Matching {
    var stack := StackOf(m.stacks, e.key);
    if e.ini then Matching(m.pairings + [Pairing(at, None, false)], m.stacks[e.key := stack + [at]])
    else if stack == [] then m.(pairings := m.pairings + [Pairing(at, None, true)])
    else Matching(Close(m.pairings, stack[|stack| - 1], at), m.stacks[e.key := stack[..|stack| - 1]])
  }

  /** The matching after the first `n` events. */
  function MatchAll(evs: seq<Option<Ev>>, n: nat): Matching
    requires n <= |evs|
  {
    if n == 0 then Matching([], map[])
    else
      var m := MatchAll(evs, n - 1);
      if evs[n - 1].None? then m else MatchStep(m, evs[n - 1].value, n - 1)
  }

  function Events(records: seq<ParsedRecord>): seq<Option<Ev>> {
    seq(|records|, i requires 0 <= i < |records| => EventAt(records, i))
  }

  function StageOf(records: seq<ParsedRecord>, p: Pairing): LifecycleStage {
    if p.start < |records| && records[p.start].component.Some? then
      var r := records[p.start];
      LifecycleStage(r.component.value, r.jobId, r.iteration, r.entity, p.start, p.end, p.end.Some?, p.orphan)
    else LifecycleStage("", NoJob, None, None, p.start, p.end, p.end.Some?, p.orphan)
  }

  function StagesOf(records: seq<ParsedRecord>, pairings: seq<Pairing>): seq<LifecycleStage> {
    seq(|pairings|, i requires 0 <= i < |pairings| => StageOf(records, pairings[i]))
  }

  function Stages(records: seq<ParsedRecord>): seq<LifecycleStage> {
    StagesOf(records, MatchAll(Events(records), |records|).pairings)
  }

  // ---- the loop ------------------------------------------------------------

  /** Every stack holds the positions, in the stage list, of the matching's open starts. */
  ghost predicate Mirrors(opening: Stacks, stages: seq<LifecycleStage>, m: Matching) {
    forall k :: Points(StackOf(opening, k), stages, StackOf(m.stacks, k))
  }

  predicate Points(positions: seq<nat>, stages: seq<LifecycleStage>, starts: seq<nat>) {
    |positions| == |starts| &&
    forall j :: 0 <= j < |positions| ==> positions[j] < |stages| && stages[positions[j]].start == starts[j]
  }

  predicate AscendingStarts(pairings: seq<Pairing>, n: nat) {
    && (forall i, j :: 0 <= i < j < |pairings| ==> pairings[i].start < pairings[j].start)
    && (forall i :: 0 <= i < |pairings| ==> pairings[i].start < n)
  }

  lemma {:induction false} StartsAscend(evs: seq<Option<Ev>>, n: nat)
    requires n <= |evs|
    ensures AscendingStarts(MatchAll(evs, n).pairings, n)
  {
    if n > 0 {
      StartsAscend(evs, n - 1);
    }
  }

  /** An INI opens a stage. */
  method TakeIni(
    records: seq<ParsedRecord>, i: nat, key: Key, before: seq<LifecycleStage>, opening: Stacks, ghost m: Matching)
    returns (stages: seq<LifecycleStage>, stacks: Stacks)
    requires i < |records| && records[i].component.Some?
    requires before == StagesOf(records, m.pairings) && Mirrors(opening, before, m)
    ensures var next := MatchStep(m, Ev(key, true), i);
      stages == StagesOf(records, next.pairings) && Mirrors(stacks, stages, next)
  {
    var record := records[i];
    var stage := LifecycleStage(
      record.component.value, record.jobId, record.iteration, record.entity, i, None, false, false);
    stages := before + [stage];
    stacks := opening[key := StackOf(opening, key) + [|before|]];
    StagesPush(records, m.pairings, Pairing(i, None, false));
    MirrorsPush(opening, before, m, key, stage);
  }

  /** A FIN closes the latest open stage of its key, or is recorded as an orphan. */
  method TakeFin(
    records: seq<ParsedRecord>, i: nat, key: Key, before: seq<LifecycleStage>, opening: Stacks, ghost m: Matching)
    returns (stages: seq<LifecycleStage>, stacks: Stacks)
    requires i < |records| && records[i].component.Some?
    requires before == StagesOf(records, m.pairings) && AscendingStarts(m.pairings, i) && Mirrors(opening, before, m)
    ensures var next := MatchStep(m, Ev(key, false), i);
      stages == StagesOf(records, next.pairings) && Mirrors(stacks, stages, next)
  {
    var record := records[i];
    var stack := StackOf(opening, key);
    assert Points(stack, before, StackOf(m.stacks, key));
    if stack == [] {
      var stage := LifecycleStage(
        record.component.value, record.jobId, record.iteration, record.entity, i, None, false, true);
      stages, stacks := before + [stage], opening;
      StagesPush(records, m.pairings, Pairing(i, None, true));
      MirrorsOrphan(opening, before, m, stage);
    } else {
      var at := stack[|stack| - 1];
      stages := before[at := before[at].(complete := true, end := Some(i))];
      stacks := opening[key := stack[..|stack| - 1]];
      MirrorsPop(opening, before, m, key, i);
      CloseAt(records, m.pairings, at, i);
    }
  }

  method BuildLifecycle(records: seq<ParsedRecord>) returns (stages: seq<LifecycleStage>)
    ensures stages == Stages(records)
  {
    stages := [];
    var opening: Stacks := map[];
    var context: Option<int> := None;
    ghost var evs := Events(records);
    for i := 0 to |records|
      invariant context == Context(records, i)
      invariant stages == StagesOf(records, MatchAll(evs, i).pairings)
      invariant Mirrors(opening, stages, MatchAll(evs, i))
    {
      var record := records[i];
      StartsAscend(evs, i);
      if !record.isTbLog {
        continue;
      }
      if record.iteration.Some? && record.iteration != context {
        context := record.iteration;
      }
      if record.marker != Some(Ini) && record.marker != Some(Fin) {
        continue;
      }
      var key := CorrelationKey(record, context);
      if key.None? {
        continue;
      }
      assert evs[i] == Some(Ev(key.value, record.marker == Some(Ini)));
      if record.marker == Some(Ini) {
        stages, opening := TakeIni(records, i, key.value, stages, opening, MatchAll(evs, i));
      } else {
        stages, opening := TakeFin(records, i, key.value, stages, opening, MatchAll(evs, i));
      }
    }
  }

  lemma StagesPush(records: seq<ParsedRecord>, pairings: seq<Pairing>, p: Pairing)
    ensures StagesOf(records, pairings + [p]) == StagesOf(records, pairings) + [StageOf(records, p)]
  {
  }

  lemma MirrorsPush(opening: Stacks, stages: seq<LifecycleStage>, m: Matching, key: Key, stage: LifecycleStage)
    requires Mirrors(opening, stages, m)
    ensures Mirrors(opening[key := StackOf(opening, key) + [|stages|]], stages + [stage],
                    Matching(m.pairings + [Pairing(stage.start, None, false)],
                             m.stacks[key := StackOf(m.stacks, key) + [stage.start]]))
  {
    var stacks := opening[key := StackOf(opening, key) + [|stages|]];
    var starts := m.stacks[key := StackOf(m.stacks, key) + [stage.start]];
    forall k
      ensures Points(StackOf(stacks, k), stages + [stage], StackOf(starts, k))
    {
      assert Points(StackOf(opening, k), stages, StackOf(m.stacks, k));
    }
  }

  lemma MirrorsOrphan(opening: Stacks, stages: seq<LifecycleStage>, m: Matching, stage: LifecycleStage)
    requires Mirrors(opening, stages, m)
    ensures Mirrors(opening, stages + [stage], m.(pairings := m.pairings + [Pairing(stage.start, None, true)]))
  {
    forall k
      ensures Points(StackOf(opening, k), stages + [stage], StackOf(m.stacks, k))
    {
      assert Points(StackOf(opening, k), stages, StackOf(m.stacks, k));
    }
  }

  lemma MirrorsPop(opening: Stacks, stages: seq<LifecycleStage>, m: Matching, key: Key, end: nat)
    requires Mirrors(opening, stages, m) && StackOf(opening, key) != []
    ensures var stack, starts := StackOf(opening, key), StackOf(m.stacks, key);
      var at := stack[|stack| - 1];
      && |starts| == |stack| && at < |stages| && stages[at].start == starts[|starts| - 1]
      && Mirrors(opening[key := stack[..|stack| - 1]], stages[at := stages[at].(complete := true, end := Some(end))],
                 Matching(Close(m.pairings, starts[|starts| - 1], end), m.stacks[key := starts[..|starts| - 1]]))
  {
    var stack, starts := StackOf(opening, key), StackOf(m.stacks, key);
    assert Points(stack, stages, starts);
    var at := stack[|stack| - 1];
    var after := stages[at := stages[at].(complete := true, end := Some(end))];
    var popped, rest := opening[key := stack[..|stack| - 1]], m.stacks[key := starts[..|starts| - 1]];
    forall k
      ensures Points(StackOf(popped, k), after, StackOf(rest, k))
    {
      assert Points(StackOf(opening, k), stages, StackOf(m.stacks, k));
    }
  }

  /** Closing by position and closing by start record agree, since starts are distinct. */
  lemma CloseAt(records: seq<ParsedRecord>, pairings: seq<Pairing>, at: nat, end: nat)
    requires at < |pairings| && AscendingStarts(pairings, end)
    ensures var stages := StagesOf(records, pairings);
      StagesOf(records, Close(pairings, pairings[at].start, end))
      == stages[at := stages[at].(complete := true, end := Some(end))]
  {
    var closed := Close(pairings, pairings[at].start, end);
    forall i | 0 <= i < |pairings|
      ensures closed[i] == if i == at then pairings[i].(end := Some(end)) else pairings[i]
    {
    }
  }
}
