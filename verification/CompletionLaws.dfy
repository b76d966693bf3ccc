/** What the completion report means after a full run. */
module CompletionLaws {
  import opened Prelude
  import opened GraphModel
  import opened EngineState
  import opened EngineSpec
  import opened Safety
  import opened Confluence
  import Selection
  import Termination

  /** Mandatory node `n` ran and its fixed outcome satisfies prerequisites. */
  ghost predicate MandatorySatisfied(env: Env, out: NodeId -> HandlerEnd, done: set<NodeId>) {
    forall n :: n in env.graph.nodes && !env.graph.nodes[n].optional ==> SatisfiedBy(out, done, n)
  }

  lemma SatisfiedInFixpoint(env: Env, out: NodeId -> HandlerEnd, empty: bool, s: State, done: set<NodeId>, n: NodeId)
    requires Plain(env, out) && StatusAt(s, n) == StatusOnce(env, out, empty, done, n)
    ensures IsSatisfied(s, n) <==> SatisfiedBy(out, done, n)
    ensures !HasStatus(s, n, Running) && !HasStatus(s, n, Failed)
  {
    assert Settled(EndStatus(out(n)));
  }

  /**
   * After a run to exhaustion with fixed non-failing outcomes the report is never
   * RUNNING; it is one of the two COMPLETED reports exactly when no blocking request is
   * open and every mandatory node lies in the least fixpoint with a satisfying outcome.
   */
  lemma CompletionAfterFullRun(env: Env, out: NodeId -> HandlerEnd, facts: map<string, int>, empty: bool, steps: nat)
    returns (done: set<NodeId>)
    requires Plain(env, out) && env.graph.maxCycles >= 2 && steps > |env.graph.nodes|
    ensures LeastFixpoint(env, out, empty, done)
    ensures var s := EngineRun(env, Start(env, facts, empty), steps, 0).state;
      var report := CompletionStatus(env, s);
      && report != CompletionRunning
      && (report == Completed || report == CompletedWithLimitations <==>
            !OpenRequests(s, true) && MandatorySatisfied(env, out, done))
  {
    done := RunReachesLeastFixpoint(env, out, facts, empty, steps);
    var s := EngineRun(env, Start(env, facts, empty), steps, 0).state;
    forall n
      ensures IsSatisfied(s, n) <==> SatisfiedBy(out, done, n)
      ensures !HasStatus(s, n, Running) && !HasStatus(s, n, Failed)
    {
      SatisfiedInFixpoint(env, out, empty, s, done, n);
    }
    NothingRunnable(env, out, facts, empty, steps);
    ReportMeans(env, s);
  }

  lemma NothingRunnable(env: Env, out: NodeId -> HandlerEnd, facts: map<string, int>, empty: bool, steps: nat)
    requires Plain(env, out) && env.graph.maxCycles >= 2 && steps > |env.graph.nodes|
    ensures Pick(env, EngineRun(env, Start(env, facts, empty), steps, 0).state).None?
  {
    var _ := RunReachesLeastFixpoint(env, out, facts, empty, steps);
    Termination.RunIsPaidFor(env, Start(env, facts, empty), steps, 0);
    Selection.PickFindsRunnable(env, EngineRun(env, Start(env, facts, empty), steps, 0).state);
  }

  /**
   * "RUNNING is reported if and only if something runs or could run" is met exactly when
   * something runs, nothing could run, or nothing else decides first.
   */
  lemma RunningReported(env: Env, s: State)
    ensures var running, runnable := SomeNode(env, s, false, Running), exists n :: Runnable(env, s, n);
      var waiting := SomeNode(env, s, true, WaitingForInput) || SomeNode(env, s, true, WaitingForApproval);
      (CompletionStatus(env, s) == CompletionRunning <==> running || runnable) <==>
        || running
        || !runnable
        || (!SomeRequest(s, true) && !waiting && !SomeNode(env, s, true, Failed) && !EveryMandatoryDone(env, s))
  {
    ReportMeans(env, s);
  }

  /** A node of the graph, mandatory ones only if asked, with this status. */
  ghost predicate SomeNode(env: Env, s: State, mandatoryOnly: bool, st: Status) {
    exists n :: n in env.graph.nodes && (!mandatoryOnly || !env.graph.nodes[n].optional) && HasStatus(s, n, st)
  }

  ghost predicate EveryMandatoryDone(env: Env, s: State) {
    forall n :: n in env.graph.nodes && !env.graph.nodes[n].optional ==>
      HasStatus(s, n, Succeeded) || HasStatus(s, n, Skipped)
  }

  ghost predicate OptionalNodeWaits(env: Env, s: State) {
    exists n :: n in env.graph.nodes && env.graph.nodes[n].optional &&
                (HasStatus(s, n, WaitingForInput) || HasStatus(s, n, WaitingForApproval))
  }

  predicate SomeRequest(s: State, blockingOnly: bool) {
    exists i :: 0 <= i < |s.requests| && s.requests[i].status == Open &&
                (!blockingOnly || s.requests[i].priority == "BLOCKING")
  }

  lemma ConditionsSpelledOut(env: Env, s: State)
    ensures forall m, st :: AnyStatus(env, s, m, st) == SomeNode(env, s, m, st)
    ensures MandatoryDone(env, s) == EveryMandatoryDone(env, s)
    ensures OptionalWaiting(env, s) == OptionalNodeWaits(env, s)
    ensures forall b :: OpenRequests(s, b) == SomeRequest(s, b)
  {
  }

  /** The decision chain flattened: exactly when each report is given. */
  lemma ReportMeans(env: Env, s: State)
    ensures var report, running, blocking, done, runnable :=
        CompletionStatus(env, s), SomeNode(env, s, false, Running), SomeRequest(s, true), EveryMandatoryDone(env, s),
        exists n :: Runnable(env, s, n);
      var waiting := SomeNode(env, s, true, WaitingForInput) || SomeNode(env, s, true, WaitingForApproval);
      var failed := SomeNode(env, s, true, Failed);
      && (report == Completed <==>
            !running && !blocking && done && !OptionalNodeWaits(env, s) && !SomeRequest(s, false))
      && (report == CompletedWithLimitations <==>
            !running && !blocking && done && (OptionalNodeWaits(env, s) || SomeRequest(s, false)))
      && (report == CompletionWaiting <==> !running && (blocking || waiting))
      && (report == CompletionRunning <==> running || (!blocking && !waiting && !failed && !done && runnable))
      && (report == CompletionBlocked <==> !running && !blocking && !waiting && !done && (failed || !runnable))
  {
    ConditionsSpelledOut(env, s);
    Selection.PickFindsRunnable(env, s);
    forall st | MandatoryDone(env, s) && AnyStatus(env, s, true, st)
      ensures Satisfies(st)
    {
      var n :| n in env.graph.nodes && !env.graph.nodes[n].optional && HasStatus(s, n, st);
      assert IsSatisfied(s, n);
    }
  }
}
