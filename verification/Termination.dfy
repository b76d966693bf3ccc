/**
 * Amortised termination of the run loop: every iteration that does not raise spends
 * one unit of #READY + #(edges whose source has not succeeded), on cyclic graphs and
 * for all outcomes.
 */
module Termination {
  import opened Prelude
  import opened GraphModel
  import opened EngineState
  import opened EngineSpec
  import opened Ledger
  import opened Safety
  import Selection

  function ReadyNodes(s: State): set<NodeId> {
    set n | n in s.nodes && s.nodes[n].status == Ready
  }

  /** Edges that may still be taken. */
  function OpenEdges(edges: seq<Edge>, s: State): nat {
    if edges == [] then 0
    else (if HasStatus(s, edges[0].source, Succeeded) then 0 else 1) + OpenEdges(edges[1..], s)
  }

  /** An empty assessment has one unit for its entry. */
  function Potential(env: Env, s: State): nat {
    |ReadyNodes(s)| + OpenEdges(env.graph.edges, s) + (if s.nodes == map[] then 1 else 0)
  }

  function OutDegree(edges: seq<Edge>, n: NodeId): nat {
    |EdgesFrom(edges, n)|
  }

  lemma {:induction false} OpenEdgesBound(edges: seq<Edge>, s: State)
    ensures OpenEdges(edges, s) <= |edges|
  {
    if edges != [] {
      OpenEdgesBound(edges[1..], s);
    }
  }

  lemma {:induction false} TargetsWithinDegree(edges: seq<Edge>, n: NodeId, targets: set<NodeId>)
    requires forall m :: m in targets ==> exists e :: e in edges && e.source == n && e.target == m
    ensures |targets| <= OutDegree(edges, n)
  {
    if edges == [] {
      assert targets == {};
    } else {
      var first := edges[0];
      var rest := if first.source == n then targets - {first.target} else targets;
      forall m | m in rest
        ensures exists e :: e in edges[1..] && e.source == n && e.target == m
      {
        var e :| e in edges && e.source == n && e.target == m;
        assert e in edges[1..];
      }
      TargetsWithinDegree(edges[1..], n, rest);
      assert targets <= rest + {first.target};
    }
  }

  /** Marking `n` SUCCEEDED closes exactly its outgoing edges. */
  lemma {:induction false} SuccessClosesEdges(edges: seq<Edge>, s: State, t: State, n: NodeId)
    requires !HasStatus(s, n, Succeeded) && HasStatus(t, n, Succeeded)
    requires forall m :: m != n ==> (HasStatus(s, m, Succeeded) <==> HasStatus(t, m, Succeeded))
    ensures OpenEdges(edges, t) + OutDegree(edges, n) == OpenEdges(edges, s)
  {
    if edges != [] {
      SuccessClosesEdges(edges[1..], s, t, n);
    }
  }

  lemma {:induction false} SameOpenEdges(edges: seq<Edge>, s: State, t: State)
    requires forall m :: HasStatus(s, m, Succeeded) <==> HasStatus(t, m, Succeeded)
    ensures OpenEdges(edges, t) == OpenEdges(edges, s)
  {
    if edges != [] {
      SameOpenEdges(edges[1..], s, t);
    }
  }

  lemma SmallerReady(a: set<NodeId>, b: set<NodeId>, extra: set<NodeId>, n: NodeId)
    requires n !in a && a <= b + extra
    ensures |a| <= |b| + |extra| - (if n in b then 1 else 0)
  {
    var c := b - {n};
    assert a <= c + extra;
    Subset(a, c + extra);
    assert |c + extra| <= |c| + |extra|;
  }

  lemma {:induction false} Subset(a: set<NodeId>, b: set<NodeId>)
    requires a <= b
    ensures |a| <= |b|
  {
    if a != {} {
      var x :| x in a;
      Subset(a - {x}, b - {x});
    }
  }

  lemma StatusAfter(env: Env, s: State, n: NodeId, m: NodeId)
    requires Executes(env, s, n) && Runnable(env, s, n)
    ensures var t := RunNode(env, s, n).state;
      && (HasStatus(t, m, Ready) ==> m != n && (HasStatus(s, m, Ready) || Promotes(env, s, n, m)))
      && (m != n ==> (HasStatus(s, m, Succeeded) <==> HasStatus(t, m, Succeeded)))
      && (HasStatus(t, n, Succeeded) <==> Succeeds(env, s, n))
      && !HasStatus(s, n, Succeeded)
      && n in t.nodes
  {
    RunNodeFrame(env, s, n, m);
  }

  ghost function Promoted(env: Env, s: State, n: NodeId): set<NodeId> {
    set m | m in RunNode(env, s, n).state.nodes && Promotes(env, s, n, m)
  }

  lemma PromotedWithinDegree(env: Env, s: State, n: NodeId)
    ensures |Promoted(env, s, n)| <= OutDegree(env.graph.edges, n)
    ensures !Succeeds(env, s, n) ==> Promoted(env, s, n) == {}
  {
    forall m | m in Promoted(env, s, n)
      ensures exists e :: e in env.graph.edges && e.source == n && e.target == m
    {
      RunNodeFrame(env, s, n, m);
    }
    TargetsWithinDegree(env.graph.edges, n, Promoted(env, s, n));
  }

  /** One execution of a runnable node spends potential, however the handler ends. */
  lemma ExecutionSpends(env: Env, s: State, n: NodeId)
    requires Runnable(env, s, n) && Executes(env, s, n)
    ensures Potential(env, RunNode(env, s, n).state) < Potential(env, s)
  {
    var t := RunNode(env, s, n).state;
    StatusAfter(env, s, n, n);
    forall m
      ensures m in ReadyNodes(t) ==> m != n && m in ReadyNodes(s) + Promoted(env, s, n)
      ensures m != n ==> (HasStatus(s, m, Succeeded) <==> HasStatus(t, m, Succeeded))
    {
      StatusAfter(env, s, n, m);
    }
    PromotedWithinDegree(env, s, n);
    SmallerReady(ReadyNodes(t), ReadyNodes(s), Promoted(env, s, n), n);
    if Succeeds(env, s, n) {
      SuccessClosesEdges(env.graph.edges, s, t, n);
    } else {
      SameOpenEdges(env.graph.edges, s, t);
    }
    assert t.nodes != map[];
    if n in s.nodes {
      assert n in ReadyNodes(s) && s.nodes != map[];
    } else {
      assert s.nodes == map[];
    }
  }

  lemma IterationSpends(env: Env, s: State)
    requires Iteration(env, s).Some? && !Iteration(env, s).value.attempt.Rejected?
    ensures Potential(env, Iteration(env, s).value.state) < Potential(env, s)
  {
    var n := Pick(env, s).value;
    PickIsRunnable(env, s);
    ExecutionSpends(env, s, n);
  }

  lemma RejectedKeepsState(env: Env, s: State)
    requires Iteration(env, s).Some? && Iteration(env, s).value.attempt.Rejected?
    ensures Iteration(env, s).value.state == s
  {
  }

  // ---- the loop ------------------------------------------------------------

  /** Each iteration that does not raise lowers `rank`. */
  ghost predicate Spends(next: State -> Option<Step>, rank: State -> nat) {
    forall s :: next(s).Some? ==>
      if next(s).value.attempt.Rejected? then next(s).value.state == s else rank(next(s).value.state) < rank(s)
  }

  lemma {:induction false} LoopSpends(
    next: State -> Option<Step>, rank: State -> nat, bound: int, s: State, steps: nat, transitions: int)
    requires Spends(next, rank)
    ensures var r := RunLoop(next, bound, s, steps, transitions);
      && |r.outcomes| + rank(r.state) <= rank(s)
      && r.transitions == transitions + |r.outcomes|
      && (r.end == CycleLimit ==> bound <= r.transitions)
      && (r.end == StepLimit ==> |r.outcomes| == steps)
      && (r.end == Drained ==> next(r.state) == None)
    decreases steps
  {
    if steps > 0 && next(s).Some? {
      var step := next(s).value;
      if step.attempt.Done? && transitions + 1 < bound {
        LoopSpends(next, rank, bound, step.state, steps - 1, transitions + 1);
      }
    }
  }

  ghost function Rank(env: Env): State -> nat {
    s => Potential(env, s)
  }

  lemma EngineSpends(env: Env)
    ensures Spends(Iterations(env), Rank(env))
  {
    forall s | Iterations(env)(s).Some?
      ensures var step := Iterations(env)(s).value;
        if step.attempt.Rejected? then step.state == s else Rank(env)(step.state) < Rank(env)(s)
    {
      if Iteration(env, s).value.attempt.Rejected? {
        RejectedKeepsState(env, s);
      } else {
        IterationSpends(env, s);
      }
    }
  }

  /** Any run from any state: executions are paid for by the potential it starts with. */
  lemma RunIsPaidFor(env: Env, s: State, steps: nat, transitions: int)
    ensures var r := EngineRun(env, s, steps, transitions);
      && |r.outcomes| + Potential(env, r.state) <= Potential(env, s)
      && r.transitions == transitions + |r.outcomes|
      && (r.end == CycleLimit ==> Bound(env.graph) <= transitions + Potential(env, s))
      && (r.end == Drained ==> forall n :: !Runnable(env, r.state, n))
      && (steps > Potential(env, s) ==> r.end != StepLimit)
  {
    EngineSpends(env);
    LoopSpends(Iterations(env), Rank(env), Bound(env.graph), s, steps, transitions);
    var r := EngineRun(env, s, steps, transitions);
    if r.end == Drained {
      assert Iterations(env)(r.state) == None;
      Selection.PickFindsRunnable(env, r.state);
    }
  }

  /**
   * A run on a new assessment, opened or not, executes at most 1 + |E| nodes; the
   * transition bound can only be hit when max_cycles * |N| <= 1 + |E|.
   */
  lemma FreshRunTerminates(env: Env, facts: map<string, int>, bootstrapped: bool, steps: nat)
    ensures var s := if bootstrapped then OpenEngine(env, Initial(facts)) else Initial(facts);
      var r := EngineRun(env, s, steps, 0);
      && |r.outcomes| <= 1 + |env.graph.edges|
      && (r.end == CycleLimit ==> Bound(env.graph) <= 1 + |env.graph.edges|)
      && (steps > 1 + |env.graph.edges| ==> r.end != StepLimit)
  {
    var s := if bootstrapped then OpenEngine(env, Initial(facts)) else Initial(facts);
    RunIsPaidFor(env, s, steps, 0);
    OpenEdgesBound(env.graph.edges, s);
    if bootstrapped {
      assert ReadyNodes(s) == {env.graph.entry};
    } else {
      assert ReadyNodes(s) == {};
    }
  }

  // ---- how a run ends ------------------------------------------------------

  predicate Raises(end: RunEnd) {
    end.RunRejected? || end.RunDied?
  }

  lemma {:induction false} LoopStops(next: State -> Option<Step>, bound: int, s: State, steps: nat, transitions: int)
    ensures var r := RunLoop(next, bound, s, steps, transitions);
      && r.transitions == transitions + |r.outcomes|
      && (!Raises(r.end) ==> (r.end == CycleLimit <==> r.transitions >= bound))
      && (r.end == StepLimit ==> |r.outcomes| == steps)
      && (r.end == Drained ==> next(r.state) == None)
      && (|r.outcomes| > 1 ==> r.transitions - 1 < bound)
    decreases steps
  {
    if steps > 0 && next(s).Some? {
      var step := next(s).value;
      if step.attempt.Done? && transitions + 1 < bound {
        LoopStops(next, bound, step.state, steps - 1, transitions + 1);
      }
    }
  }

  /**
   * A run that raises nothing else ends with the transition bound exactly when its count
   * has reached max_cycles times the number of nodes, and no node runs behind the
   * transition that reaches it. Otherwise it used up its steps, or nothing is runnable.
   */
  lemma BoundStopsRun(env: Env, s: State, steps: nat, transitions: int)
    ensures var r, nodes := EngineRun(env, s, steps, transitions), |env.graph.nodes|;
      var bound := env.graph.maxCycles * (if nodes == 0 then 1 else nodes);
      && r.transitions == transitions + |r.outcomes|
      && (!Raises(r.end) ==> (r.end == CycleLimit <==> r.transitions >= bound))
      && (r.end == StepLimit ==> |r.outcomes| == steps)
      && (r.end == Drained ==> forall n :: !Runnable(env, r.state, n))
      && (|r.outcomes| > 1 ==> r.transitions - 1 < bound)
  {
    hide RunLoop, Iterations, Potential, Runnable;
    LoopStops(Iterations(env), Bound(env.graph), s, steps, transitions);
    RunIsPaidFor(env, s, steps, transitions);
  }

  /** An iteration that reports an outcome has added this node's execution. */
  ghost predicate Logs(next: State -> Option<Step>) {
    forall s :: next(s).Some? && next(s).value.attempt.Done? ==>
      Logged(s, next(s).value.state, next(s).value.attempt.outcome)
  }

  predicate Logged(s: State, t: State, o: RunOutcome) {
    && |t.execs| == |s.execs| + 1 && s.execs <= t.execs
    && o.execution == Some(|s.execs|)
    && t.execs[|s.execs|].node == o.node && t.execs[|s.execs|].status == o.status
  }

  /** Outcome `k` reports the `k`th new execution. */
  predicate Reports(s: State, t: State, outcomes: seq<RunOutcome>, k: int) {
    0 <= k < |outcomes| && |s.execs| + |outcomes| <= |t.execs| &&
    outcomes[k].execution == Some(|s.execs| + k) && t.execs[|s.execs| + k].node == outcomes[k].node &&
    t.execs[|s.execs| + k].status == outcomes[k].status
  }

  /** Refused iterations add no execution, others at most one. */
  ghost predicate AddsOnly(next: State -> Option<Step>) {
    forall s :: next(s).Some? ==> s.execs <= next(s).value.state.execs
  }

  lemma {:induction false} LoopLogs(next: State -> Option<Step>, bound: int, s: State, steps: nat, transitions: int)
    requires Logs(next) && AddsOnly(next)
    ensures var r := RunLoop(next, bound, s, steps, transitions);
      && s.execs <= r.state.execs
      && forall k :: 0 <= k < |r.outcomes| ==> Reports(s, r.state, r.outcomes, k)
    decreases steps
  {
    if steps > 0 && next(s).Some? {
      var step := next(s).value;
      if step.attempt.Done? {
        assert Logged(s, step.state, step.attempt.outcome);
        if transitions + 1 < bound {
          LoopLogs(next, bound, step.state, steps - 1, transitions + 1);
          LaterReports(s, step, RunLoop(next, bound, step.state, steps - 1, transitions + 1));
        }
      }
    }
  }

  lemma LaterReports(s: State, step: Step, rest: EngineSpec.Run)
    requires step.attempt.Done? && Logged(s, step.state, step.attempt.outcome)
    requires step.state.execs <= rest.state.execs
    requires forall k :: 0 <= k < |rest.outcomes| ==> Reports(step.state, rest.state, rest.outcomes, k)
    ensures var all := [step.attempt.outcome] + rest.outcomes;
      forall k :: 0 <= k < |all| ==> Reports(s, rest.state, all, k)
  {
    var all := [step.attempt.outcome] + rest.outcomes;
    if rest.outcomes != [] {
      assert Reports(step.state, rest.state, rest.outcomes, 0);
    }
    forall k | 0 <= k < |all|
      ensures Reports(s, rest.state, all, k)
    {
      if k > 0 {
        assert Reports(step.state, rest.state, rest.outcomes, k - 1);
      } else {
        assert rest.state.execs[|s.execs|] == step.state.execs[|s.execs|];
      }
    }
  }

  lemma EngineLogs(env: Env)
    ensures Logs(Iterations(env)) && AddsOnly(Iterations(env))
  {
    forall s | Iterations(env)(s).Some?
      ensures s.execs <= Iterations(env)(s).value.state.execs
      ensures Iterations(env)(s).value.attempt.Done? ==>
        Logged(s, Iterations(env)(s).value.state, Iterations(env)(s).value.attempt.outcome)
    {
      var n := Pick(env, s).value;
      PickIsRunnable(env, s);
      RunNodeFrame(env, s, n, n);
    }
  }

  /** A run reports exactly its executions: one outcome for each, in order, with node, id and status. */
  lemma OutcomesAreExecutions(env: Env, s: State, steps: nat, transitions: int, k: nat)
    ensures var r := EngineRun(env, s, steps, transitions);
      && s.execs <= r.state.execs
      && (k < |r.outcomes| ==> Reports(s, r.state, r.outcomes, k))
  {
    EngineLogs(env);
    LoopLogs(Iterations(env), Bound(env.graph), s, steps, transitions);
  }
}
