/**
 * Confluence: with edge conditions that do not depend on the state and a fixed
 * non-failing outcome per node, every order of picking runnable nodes ends in the
 * least fixpoint of activation and prerequisites.
 */
module Confluence {
  import opened Prelude
  import opened GraphModel
  import opened EngineState
  import opened EngineSpec
  import opened Ledger
  import opened Safety
  import Selection
  import Termination

  ghost predicate StateIndependent(env: Env) {
    forall c, s, t :: env.predicates(c, s) == env.predicates(c, t)
  }

  /** `out(n)` is how node `n` always ends: succeeded, waiting or skipped. */
  ghost predicate FixedOutcomes(env: Env, out: NodeId -> HandlerEnd) {
    && (forall n, s :: env.handler(n, s).end == out(n))
    && (forall n :: Settled(EndStatus(out(n))))
  }

  ghost predicate Plain(env: Env, out: NodeId -> HandlerEnd) {
    && StateIndependent(env)
    && FixedOutcomes(env, out)
    && forall n :: n in env.graph.nodes ==> AttemptCap(env, n) >= 1
  }

  predicate Takes(env: Env, e: Edge) {
    EdgeHolds(env, e, Initial(map[]))
  }

  // ---- the fixpoint --------------------------------------------------------

  /** Once the nodes in `done` have ended, is `m` activated? */
  predicate Woken(env: Env, out: NodeId -> HandlerEnd, done: set<NodeId>, m: NodeId) {
    m == env.graph.entry ||
    exists e :: e in env.graph.edges && e.target == m && e.source in done &&
                EndStatus(out(e.source)) == Succeeded && Takes(env, e)
  }

  predicate SatisfiedBy(out: NodeId -> HandlerEnd, done: set<NodeId>, r: NodeId) {
    r in done && Satisfies(EndStatus(out(r)))
  }

  predicate JoinMet(node: NodeDef, out: NodeId -> HandlerEnd, done: set<NodeId>) {
    if node.join == "any" then exists r :: r in node.prerequisites && SatisfiedBy(out, done, r)
    else forall r :: r in node.prerequisites ==> SatisfiedBy(out, done, r)
  }

  /** The entry of an empty assessment starts without its prerequisites. */
  predicate CanRun(env: Env, out: NodeId -> HandlerEnd, empty: bool, done: set<NodeId>, n: NodeId) {
    && n in env.graph.nodes
    && Woken(env, out, done, n)
    && (JoinMet(env.graph.nodes[n], out, done) || (empty && n == env.graph.entry))
  }

  ghost predicate IsClosed(env: Env, out: NodeId -> HandlerEnd, empty: bool, done: set<NodeId>) {
    forall n :: CanRun(env, out, empty, done, n) ==> n in done
  }

  /** The nodes of `done` are exactly those that can run after them, and no smaller set is closed. */
  ghost predicate LeastFixpoint(env: Env, out: NodeId -> HandlerEnd, empty: bool, done: set<NodeId>) {
    && (forall n :: n in done <==> CanRun(env, out, empty, done, n))
    && (forall other :: IsClosed(env, out, empty, other) ==> done <= other)
  }

  lemma LeastFixpointUnique(env: Env, out: NodeId -> HandlerEnd, empty: bool, a: set<NodeId>, b: set<NodeId>)
    requires LeastFixpoint(env, out, empty, a) && LeastFixpoint(env, out, empty, b)
    ensures a == b
  {
    assert IsClosed(env, out, empty, a) && IsClosed(env, out, empty, b);
  }

  lemma CanRunMonotone(env: Env, out: NodeId -> HandlerEnd, empty: bool, a: set<NodeId>, b: set<NodeId>, n: NodeId)
    requires a <= b && CanRun(env, out, empty, a, n)
    ensures CanRun(env, out, empty, b, n)
  {
    assert forall r :: SatisfiedBy(out, a, r) ==> SatisfiedBy(out, b, r);
  }

  // ---- the state is determined by the executed nodes -----------------------

  /** The status of `m` once exactly the nodes in `done` have run. */
  function StatusOnce(env: Env, out: NodeId -> HandlerEnd, empty: bool, done: set<NodeId>, m: NodeId): Option<Status> {
    if m in done then Some(EndStatus(out(m)))
    else if empty && done == {} then None
    else if Woken(env, out, done, m) then Some(Ready)
    else None
  }

  function StatusAt(s: State, m: NodeId): Option<Status> {
    if m in s.nodes then Some(s.nodes[m].status) else None
  }

  ghost predicate Agrees(env: Env, out: NodeId -> HandlerEnd, empty: bool, s: State, done: set<NodeId>, m: NodeId) {
    && StatusAt(s, m) == StatusOnce(env, out, empty, done, m)
    && (m !in done ==> Attempts(s, m) == 0)
  }

  ghost predicate Determined(env: Env, out: NodeId -> HandlerEnd, empty: bool, s: State, done: set<NodeId>) {
    && (forall m :: Agrees(env, out, empty, s, done, m))
    && (empty ==> if done == {} then s.nodes == map[] else env.graph.entry in done)
    && (forall n :: n in done ==> CanRun(env, out, empty, done, n))
    && (forall other :: IsClosed(env, out, empty, other) ==> done <= other)
  }

  lemma StartDetermined(env: Env, out: NodeId -> HandlerEnd, facts: map<string, int>, empty: bool)
    ensures Determined(env, out, empty, if empty then Initial(facts) else OpenEngine(env, Initial(facts)), {})
  {
    var s := if empty then Initial(facts) else OpenEngine(env, Initial(facts));
    forall m
      ensures Agrees(env, out, empty, s, {}, m)
    {
    }
  }

  lemma SatisfactionAgrees(env: Env, out: NodeId -> HandlerEnd, empty: bool, s: State, done: set<NodeId>, r: NodeId)
    requires Agrees(env, out, empty, s, done, r)
    ensures IsSatisfied(s, r) <==> SatisfiedBy(out, done, r)
  {
  }

  /** In a determined state the runnable nodes are those the fixpoint adds next. */
  lemma RunnableAgrees(env: Env, out: NodeId -> HandlerEnd, empty: bool, s: State, done: set<NodeId>, n: NodeId)
    requires Plain(env, out) && Determined(env, out, empty, s, done)
    ensures Runnable(env, s, n) ==> n !in done && CanRun(env, out, empty, done, n) && Executes(env, s, n)
    ensures n !in done && CanRun(env, out, empty, done, n) ==> Runnable(env, s, n) || (empty && n == env.graph.entry)
  {
    assert Agrees(env, out, empty, s, done, n);
    assert Settled(EndStatus(out(n)));
    forall r
      ensures IsSatisfied(s, r) <==> SatisfiedBy(out, done, r)
    {
      assert Agrees(env, out, empty, s, done, r);
      SatisfactionAgrees(env, out, empty, s, done, r);
    }
  }

  lemma WokenAfter(env: Env, out: NodeId -> HandlerEnd, s: State, done: set<NodeId>, n: NodeId, m: NodeId)
    requires Plain(env, out) && Executes(env, s, n)
    requires m != n && (m in s.nodes ==> s.nodes[m].status == Ready)
    ensures Woken(env, out, done + {n}, m) <==> Woken(env, out, done, m) || Promotes(env, s, n, m)
  {
    var t := Executed(env, s, n);
    ExecutedRows(env, s, n);
    forall e | e in env.graph.edges
      ensures EdgeHolds(env, e, t) == Takes(env, e)
    {
    }
    assert Eligible(t, m);
    if Promotes(env, s, n, m) {
      var e :| e in env.graph.edges && Activates(env, t, n, e) && e.target == m;
      assert e.source in done + {n};
    }
    if Woken(env, out, done + {n}, m) && !Woken(env, out, done, m) {
      var e :| e in env.graph.edges && e.target == m && e.source in done + {n} &&
               EndStatus(out(e.source)) == Succeeded && Takes(env, e);
      assert Activates(env, t, n, e);
    }
  }

  lemma AgreesAfter(env: Env, out: NodeId -> HandlerEnd, empty: bool, s: State, done: set<NodeId>, n: NodeId, m: NodeId)
    requires Plain(env, out) && Determined(env, out, empty, s, done) && Runnable(env, s, n)
    ensures Agrees(env, out, empty, RunNode(env, s, n).state, done + {n}, m)
  {
    RunnableAgrees(env, out, empty, s, done, n);
    RunNodeFrame(env, s, n, m);
    assert Agrees(env, out, empty, s, done, m);
    if m in done {
      assert Settled(EndStatus(out(m)));
    } else if m != n {
      WokenAfter(env, out, s, done, n, m);
    }
  }

  lemma DoneAfter(env: Env, out: NodeId -> HandlerEnd, empty: bool, done: set<NodeId>, n: NodeId)
    requires forall m :: m in done ==> CanRun(env, out, empty, done, m)
    requires CanRun(env, out, empty, done, n)
    ensures forall m :: m in done + {n} ==> CanRun(env, out, empty, done + {n}, m)
  {
    forall m | m in done + {n}
      ensures CanRun(env, out, empty, done + {n}, m)
    {
      CanRunMonotone(env, out, empty, done, done + {n}, m);
    }
  }

  lemma LeastAfter(env: Env, out: NodeId -> HandlerEnd, empty: bool, done: set<NodeId>, n: NodeId)
    requires forall other :: IsClosed(env, out, empty, other) ==> done <= other
    requires CanRun(env, out, empty, done, n)
    ensures forall other :: IsClosed(env, out, empty, other) ==> done + {n} <= other
  {
    forall other | IsClosed(env, out, empty, other)
      ensures done + {n} <= other
    {
      CanRunMonotone(env, out, empty, done, other, n);
    }
  }

  lemma RunnableEnds(env: Env, out: NodeId -> HandlerEnd, s: State, n: NodeId)
    requires Plain(env, out) && Executes(env, s, n)
    ensures RunNode(env, s, n).attempt.Done?
  {
    assert Settled(EndStatus(out(n)));
  }

  /** One more pick keeps the state determined by the nodes that have run. */
  lemma DeterminedAfter(env: Env, out: NodeId -> HandlerEnd, empty: bool, s: State, done: set<NodeId>, n: NodeId)
    requires Plain(env, out) && Determined(env, out, empty, s, done) && Runnable(env, s, n)
    ensures n !in done && n in env.graph.nodes
    ensures RunNode(env, s, n).attempt.Done?
    ensures Determined(env, out, empty, RunNode(env, s, n).state, done + {n})
  {
    var t := RunNode(env, s, n).state;
    forall m
      ensures Agrees(env, out, empty, t, done + {n}, m)
    {
      AgreesAfter(env, out, empty, s, done, n, m);
    }
    RunnableAgrees(env, out, empty, s, done, n);
    RunnableEnds(env, out, s, n);
    DoneAfter(env, out, empty, done, n);
    LeastAfter(env, out, empty, done, n);
  }

  /** When nothing is runnable any more, the executed nodes are the least fixpoint. */
  lemma DrainedIsLeast(env: Env, out: NodeId -> HandlerEnd, empty: bool, s: State, done: set<NodeId>)
    requires Plain(env, out) && Determined(env, out, empty, s, done)
    requires forall n :: !Runnable(env, s, n)
    ensures LeastFixpoint(env, out, empty, done)
  {
    forall n | CanRun(env, out, empty, done, n)
      ensures n in done
    {
      RunnableAgrees(env, out, empty, s, done, n);
    }
  }

  // ---- schedules -----------------------------------------------------------

  /** Any order of picks, each runnable when its turn comes. */
  ghost predicate ValidSchedule(env: Env, s: State, picks: seq<NodeId>)
    decreases |picks|
  {
    picks != [] ==> Runnable(env, s, picks[0]) && ValidSchedule(env, RunNode(env, s, picks[0]).state, picks[1..])
  }

  ghost function Replay(env: Env, s: State, picks: seq<NodeId>): State
    decreases |picks|
  {
    if picks == [] then s else Replay(env, RunNode(env, s, picks[0]).state, picks[1..])
  }

  ghost predicate Exhausted(env: Env, s: State) {
    forall n :: !Runnable(env, s, n)
  }

  function Elements(picks: seq<NodeId>): set<NodeId> {
    set n | n in picks
  }

  lemma {:induction false} ReplayDetermined(
    env: Env, out: NodeId -> HandlerEnd, empty: bool, s: State, done: set<NodeId>, picks: seq<NodeId>)
    requires Plain(env, out) && Determined(env, out, empty, s, done) && ValidSchedule(env, s, picks)
    ensures Determined(env, out, empty, Replay(env, s, picks), done + Elements(picks))
    decreases |picks|
  {
    hide Determined, RunNode, Runnable, Plain;
    if picks == [] {
      assert done + Elements(picks) == done;
    } else {
      DeterminedAfter(env, out, empty, s, done, picks[0]);
      ReplayDetermined(env, out, empty, RunNode(env, s, picks[0]).state, done + {picks[0]}, picks[1..]);
      assert done + {picks[0]} + Elements(picks[1..]) == done + Elements(picks);
    }
  }

  function Start(env: Env, facts: map<string, int>, empty: bool): State {
    if empty then Initial(facts) else OpenEngine(env, Initial(facts))
  }

  /** Whatever the order of picks, a run to exhaustion executes the least fixpoint and leaves its statuses. */
  lemma AnyOrderReachesFixpoint(
    env: Env, out: NodeId -> HandlerEnd, facts: map<string, int>, empty: bool, picks: seq<NodeId>)
    requires Plain(env, out) && ValidSchedule(env, Start(env, facts, empty), picks)
    requires Exhausted(env, Replay(env, Start(env, facts, empty), picks))
    ensures LeastFixpoint(env, out, empty, Elements(picks))
    ensures forall m ::
      StatusAt(Replay(env, Start(env, facts, empty), picks), m) == StatusOnce(env, out, empty, Elements(picks), m)
  {
    var s := Start(env, facts, empty);
    StartDetermined(env, out, facts, empty);
    ReplayDetermined(env, out, empty, s, {}, picks);
    assert {} + Elements(picks) == Elements(picks);
    DrainedIsLeast(env, out, empty, Replay(env, s, picks), Elements(picks));
    forall m
      ensures StatusAt(Replay(env, s, picks), m) == StatusOnce(env, out, empty, Elements(picks), m)
    {
      assert Agrees(env, out, empty, Replay(env, s, picks), Elements(picks), m);
    }
  }

  /** Two exhausted schedules end with the same status for every node. */
  lemma Confluent(
    env: Env, out: NodeId -> HandlerEnd, facts: map<string, int>, empty: bool, a: seq<NodeId>, b: seq<NodeId>,
      m: NodeId)
    requires Plain(env, out)
    requires ValidSchedule(env, Start(env, facts, empty), a) && Exhausted(env, Replay(env, Start(env, facts, empty), a))
    requires ValidSchedule(env, Start(env, facts, empty), b) && Exhausted(env, Replay(env, Start(env, facts, empty), b))
    ensures StatusAt(Replay(env, Start(env, facts, empty), a), m)
      == StatusAt(Replay(env, Start(env, facts, empty), b), m)
  {
    AnyOrderReachesFixpoint(env, out, facts, empty, a);
    AnyOrderReachesFixpoint(env, out, facts, empty, b);
    LeastFixpointUnique(env, out, empty, Elements(a), Elements(b));
  }

  // ---- the engine's own run ------------------------------------------------

  type Invariant = (State, set<NodeId>) -> bool

  ghost predicate Adds(
    next: State -> Option<Step>, det: Invariant, nodes: set<NodeId>, s: State, done: set<NodeId>, n: NodeId)
    requires next(s).Some?
  {
    n !in done && n in nodes && det(next(s).value.state, done + {n})
  }

  /** Every iteration completes and adds one new node. */
  ghost predicate Advances(next: State -> Option<Step>, det: Invariant, nodes: set<NodeId>) {
    forall s, done :: det(s, done) && next(s).Some? ==>
      next(s).value.attempt.Done? && exists n :: Adds(next, det, nodes, s, done, n)
  }

  lemma {:induction false} LoopDetermined(
    next: State -> Option<Step>, det: Invariant, nodes: set<NodeId>, bound: int,
    s: State, done: set<NodeId>, steps: nat, transitions: int)
    returns (ended: set<NodeId>)
    requires Advances(next, det, nodes) && det(s, done)
    ensures var r := RunLoop(next, bound, s, steps, transitions);
      && det(r.state, ended)
      && done <= ended <= done + nodes
      && |ended| == |done| + |r.outcomes|
      && (r.end.Drained? || r.end.StepLimit? || (r.end.CycleLimit? && transitions + |r.outcomes| >= bound))
      && (r.end.StepLimit? ==> |r.outcomes| == steps)
      && (r.end.Drained? ==> next(r.state).None?)
    decreases steps
  {
    ended := done;
    if steps > 0 && next(s).Some? {
      var n :| Adds(next, det, nodes, s, done, n);
      ended := done + {n};
      if transitions + 1 < bound {
        ended := LoopDetermined(next, det, nodes, bound, next(s).value.state, done + {n}, steps - 1, transitions + 1);
      }
    }
  }

  ghost function DeterminedIn(env: Env, out: NodeId -> HandlerEnd, empty: bool): Invariant {
    (s, done) => Determined(env, out, empty, s, done)
  }

  lemma EngineAdvances(env: Env, out: NodeId -> HandlerEnd, empty: bool)
    requires Plain(env, out)
    ensures Advances(Iterations(env), DeterminedIn(env, out, empty), env.graph.nodes.Keys)
  {
    var next, det := Iterations(env), DeterminedIn(env, out, empty);
    forall s, done | det(s, done) && next(s).Some?
      ensures next(s).value.attempt.Done? && exists n :: Adds(next, det, env.graph.nodes.Keys, s, done, n)
    {
      var n := Pick(env, s).value;
      PickIsRunnable(env, s);
      DeterminedAfter(env, out, empty, s, done, n);
      assert Adds(next, det, env.graph.nodes.Keys, s, done, n);
    }
  }

  /**
   * With max_cycles at least 2 and enough steps, `run` ends drained with every node
   * of the least fixpoint executed, each once, and every status determined by it.
   */
  lemma RunReachesLeastFixpoint(env: Env, out: NodeId -> HandlerEnd, facts: map<string, int>, empty: bool, steps: nat)
    returns (done: set<NodeId>)
    requires Plain(env, out) && env.graph.maxCycles >= 2 && steps > |env.graph.nodes|
    ensures var r := EngineRun(env, Start(env, facts, empty), steps, 0);
      && r.end == Drained
      && LeastFixpoint(env, out, empty, done)
      && |r.outcomes| == |done|
      && forall m :: StatusAt(r.state, m) == StatusOnce(env, out, empty, done, m)
  {
    var s := Start(env, facts, empty);
    StartDetermined(env, out, facts, empty);
    EngineAdvances(env, out, empty);
    done := LoopDetermined(
      Iterations(env), DeterminedIn(env, out, empty), env.graph.nodes.Keys, Bound(env.graph), s, {}, steps, 0);
    var r := EngineRun(env, s, steps, 0);
    Termination.Subset(done, env.graph.nodes.Keys);
    assert |done| <= |env.graph.nodes| < Bound(env.graph) by {
      assert |env.graph.nodes.Keys| == |env.graph.nodes|;
      BoundIsLarge(env.graph);
    }
    Selection.PickFindsRunnable(env, r.state);
    DrainedIsLeast(env, out, empty, r.state, done);
    forall m
      ensures StatusAt(r.state, m) == StatusOnce(env, out, empty, done, m)
    {
      assert Agrees(env, out, empty, r.state, done, m);
    }
  }

  lemma BoundIsLarge(g: Graph)
    requires g.maxCycles >= 2
    ensures |g.nodes| < Bound(g)
  {
    if |g.nodes| > 1 {
      assert g.maxCycles * |g.nodes| >= 2 * |g.nodes|;
    }
  }
}
