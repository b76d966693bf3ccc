/** Resume equivalence: stopping a run after some steps and reopening changes nothing. */
module Resume {
  import opened Prelude
  import opened GraphModel
  import opened EngineState
  import opened EngineSpec
  import opened Ledger
  import opened Safety
  import Termination

  /** Starting from fewer transitions gives the same run, while no bound is hit. */
  lemma {:induction false} LoopShift(
    next: State -> Option<Step>, bound: int, s: State, steps: nat, earlier: int, later: int)
    requires earlier <= later
    requires RunLoop(next, bound, s, steps, later).end != CycleLimit
    ensures var x, y := RunLoop(next, bound, s, steps, earlier), RunLoop(next, bound, s, steps, later);
      x.state == y.state && x.outcomes == y.outcomes && x.end == y.end
    decreases steps
  {
    if steps > 0 && next(s).Some? {
      var step := next(s).value;
      if step.attempt.Done? {
        LoopShift(next, bound, step.state, steps - 1, earlier + 1, later + 1);
      }
    }
  }

  /** Rejected iterations leave the state as it was. */
  ghost predicate RejectsCleanly(next: State -> Option<Step>) {
    forall s :: next(s).Some? && next(s).value.attempt.Rejected? ==> next(s).value.state == s
  }

  lemma {:induction false} LoopSplits(
    next: State -> Option<Step>, bound: int, s: State, a: nat, b: nat, transitions: nat)
    requires RejectsCleanly(next)
    requires RunLoop(next, bound, s, a + b, transitions).end != CycleLimit
    requires RunLoop(next, bound, s, a, transitions).end != RunDied
    ensures var whole := RunLoop(next, bound, s, a + b, transitions);
      var first := RunLoop(next, bound, s, a, transitions);
      var second := RunLoop(next, bound, first.state, b, 0);
      && whole.state == second.state
      && whole.outcomes == first.outcomes + second.outcomes
      && (b > 0 ==> whole.end == second.end)
    decreases a
  {
    if a == 0 {
      LoopShift(next, bound, s, b, 0, transitions);
    } else if next(s).Some? {
      var step := next(s).value;
      if step.attempt.Done? {
        LoopSplits(next, bound, step.state, a - 1, b, transitions + 1);
      }
    }
  }

  // ---- what a finished run leaves behind -----------------------------------

  /** The entry is bootstrapped and no node is RUNNING. */
  ghost predicate Quiet(env: Env, s: State) {
    env.graph.entry in s.nodes && Idle(s)
  }

  ghost predicate Idle(s: State) {
    forall n :: !HasStatus(s, n, Running)
  }

  lemma OpenIsQuiet(env: Env, s: State)
    ensures Quiet(env, OpenEngine(env, s))
  {
  }

  lemma ReopenQuiet(env: Env, s: State)
    requires Quiet(env, s)
    ensures OpenEngine(env, s) == s
  {
    assert forall n :: n in s.nodes ==> !HasStatus(s, n, Running);
    assert Recover(s).nodes == s.nodes;
    assert Recover(s).execs == s.execs;
  }

  /** Only a process death leaves a node RUNNING. */
  lemma RunKeepsIdle(env: Env, s: State, n: NodeId)
    requires Idle(s) && !RunNode(env, s, n).attempt.Died?
    ensures Idle(RunNode(env, s, n).state)
  {
    forall m
      ensures !HasStatus(RunNode(env, s, n).state, m, Running)
    {
      assert !HasStatus(s, m, Running);
      RunNodeFrame(env, s, n, m);
    }
  }

  lemma IterationStaysQuiet(env: Env, s: State)
    requires Quiet(env, s) && Iteration(env, s).Some? && !Iteration(env, s).value.attempt.Died?
    ensures Quiet(env, Iteration(env, s).value.state)
  {
    var n := Pick(env, s).value;
    RunKeepsIdle(env, s, n);
    RunNodeFrame(env, s, n, env.graph.entry);
  }

  ghost predicate Keeps(next: State -> Option<Step>, keep: State -> bool) {
    forall s :: keep(s) && next(s).Some? && !next(s).value.attempt.Died? ==> keep(next(s).value.state)
  }

  lemma {:induction false} LoopKeeps(
    next: State -> Option<Step>, keep: State -> bool, bound: int, s: State, steps: nat, transitions: int)
    requires Keeps(next, keep) && keep(s)
    requires RunLoop(next, bound, s, steps, transitions).end != RunDied
    ensures keep(RunLoop(next, bound, s, steps, transitions).state)
    decreases steps
  {
    if steps > 0 && next(s).Some? {
      var step := next(s).value;
      if step.attempt.Done? && transitions + 1 < bound {
        LoopKeeps(next, keep, bound, step.state, steps - 1, transitions + 1);
      }
    }
  }

  ghost function QuietIn(env: Env): State -> bool {
    s => Quiet(env, s)
  }

  lemma EngineKeepsQuiet(env: Env)
    ensures Keeps(Iterations(env), QuietIn(env))
    ensures RejectsCleanly(Iterations(env))
  {
    forall s | QuietIn(env)(s) && Iterations(env)(s).Some? && !Iterations(env)(s).value.attempt.Died?
      ensures QuietIn(env)(Iterations(env)(s).value.state)
    {
      IterationStaysQuiet(env, s);
    }
    forall s | Iterations(env)(s).Some? && Iterations(env)(s).value.attempt.Rejected?
      ensures Iterations(env)(s).value.state == s
    {
      Termination.RejectedKeepsState(env, s);
    }
  }

  /**
   * `run(a)`, a new engine, then `run(b)` executes the same nodes with the same
   * outcomes and reaches the same state as one `run(a + b)`, from any opened state,
   * as long as that run hits no transition bound and the process does not die in
   * the first part.
   */
  lemma ResumeEquivalence(env: Env, stored: State, a: nat, b: nat)
    requires var s := OpenEngine(env, stored);
      EngineRun(env, s, a + b, 0).end != CycleLimit && EngineRun(env, s, a, 0).end != RunDied
    ensures var s := OpenEngine(env, stored);
      var whole := EngineRun(env, s, a + b, 0);
      var first := EngineRun(env, s, a, 0);
      var second := EngineRun(env, OpenEngine(env, first.state), b, 0);
      && whole.state == second.state
      && whole.outcomes == first.outcomes + second.outcomes
      && (b > 0 ==> whole.end == second.end)
  {
    var s := OpenEngine(env, stored);
    OpenIsQuiet(env, stored);
    EngineKeepsQuiet(env);
    LoopKeeps(Iterations(env), QuietIn(env), Bound(env.graph), s, a, 0);
    ReopenQuiet(env, EngineRun(env, s, a, 0).state);
    LoopSplits(Iterations(env), Bound(env.graph), s, a, b, 0);
  }
}
