/**
 * Reachable states in which the engine does something other than its comments and
 * documentation say. All of them are runs of one small graph: the entry "a" leads to
 * "b" and "c".
 */
module Differences {
  import opened Prelude
  import opened GraphModel
  import opened EngineState
  import opened EngineSpec
  import opened Ledger
  import opened Safety
  import opened CompletionLaws
  import opened Exhaustion
  import opened Reruns
  import opened Resume
  import Selection

  function Node(needs: seq<NodeId>, join: string): NodeDef {
    NodeDef("validation", "phase0", "", false, needs, join, false, 5)
  }

  /** What "a" and "c" require, and how "c" joins. */
  function Fork(entryNeeds: seq<NodeId>, needs: seq<NodeId>, join: string): Graph {
    Graph(
      "a",
      map["a" := Node(entryNeeds, "all"), "b" := Node([], "all"), "c" := Node(needs, join)],
      [Edge("a", "b", None, 0), Edge("a", "c", None, 0)],
      25)
  }

  function Ends(end: HandlerEnd): Reply {
    Reply(end, [], map[])
  }

  /** "a" and "b" reply as given, "c" succeeds; `cap` attempts a node. */
  function Scene(graph: Graph, a: Reply, b: Reply, cap: int := 1): Env {
    Env(
      graph,
      cap,
      (n, s) => if n == "a" then a else if n == "b" then b else Ends(Returned(Success, true)),
      (c, s) => true)
  }

  ghost function Reached(env: Env, events: seq<Event>): State {
    History(env, Initial(map[]), events)
  }

  lemma PickRuns(env: Env, events: seq<Event>, n: NodeId)
    requires IsPick(env, Reached(env, events), n)
    ensures Reached(env, events + [PickStep]) == RunNode(env, Reached(env, events), n).state
  {
    HistoryPush(env, Initial(map[]), events, PickStep);
    Selection.PickUnique(env, Reached(env, events), n);
  }

  /** The first iteration runs the entry of the empty assessment. */
  lemma EntryRuns(env: Env)
    requires env.graph.nodes.Keys == {"a", "b", "c"} && env.graph.entry == "a"
    ensures IsPick(env, Initial(map[]), "a")
    ensures Reached(env, [PickStep]) == RunNode(env, Initial(map[]), "a").state
  {
    assert [] + [PickStep] == [PickStep];
    PickRuns(env, [], "a");
  }

  const OK := Ends(Returned(Success, true))

  lemma RequestsAfterRun(env: Env, s: State, n: NodeId)
    requires Executes(env, s, n)
    ensures RunNode(env, s, n).state.requests == CreateRequests(Begin(s, n), n, ReplyTo(env, s, n).specs).requests
  {
    ExecutedRows(env, s, n);
  }

  /** After a successful entry both branches are READY. */
  lemma ForkOpens(needs: seq<NodeId>, join: string, b: Reply, cap: int := 1)
    requires cap >= 1
    ensures var env := Scene(Fork([], needs, join), OK, b, cap);
      var s := Reached(env, [PickStep]);
      && HasRow(s, "a", NodeRow(Succeeded, 1, Some(0)))
      && HasRow(s, "b", NodeRow(Ready, 0, None))
      && HasRow(s, "c", NodeRow(Ready, 0, None))
      && s.execs == [Execution("a", 1, Succeeded, false)] && s.requests == []
  {
    var env := Scene(Fork([], needs, join), OK, b, cap);
    var s := Initial(map[]);
    EntryRuns(env);
    assert Executes(env, s, "a");
    assert Activates(env, Executed(env, s, "a"), "a", env.graph.edges[0]) by {
      ExecutedRows(env, s, "a");
    }
    assert Activates(env, Executed(env, s, "a"), "a", env.graph.edges[1]) by {
      ExecutedRows(env, s, "a");
    }
    assert Promotes(env, s, "a", "b") && Promotes(env, s, "a", "c");
    RunNodeFrame(env, s, "a", "a");
    RunNodeFrame(env, s, "a", "b");
    RunNodeFrame(env, s, "a", "c");
    RequestsAfterRun(env, s, "a");
  }

  /** Then "b" runs, whatever "c" waits for. */
  lemma BranchRuns(needs: seq<NodeId>, join: string, b: Reply, cap: int := 1)
    requires cap >= 1
    ensures var env := Scene(Fork([], needs, join), OK, b, cap);
      var s, t := Reached(env, [PickStep]), Reached(env, [PickStep, PickStep]);
      && IsPick(env, s, "b")
      && HasRow(t, "a", NodeRow(Succeeded, 1, Some(0)))
      && HasRow(t, "b", EndRow(env, s, "b"))
      && HasRow(t, "c", NodeRow(Ready, 0, None))
      && t.execs == s.execs + [EndExecution(env, s, "b")]
      && t.requests == CreateRequests(Begin(s, "b"), "b", b.specs).requests
  {
    var env := Scene(Fork([], needs, join), OK, b, cap);
    var s := Reached(env, [PickStep]);
    ForkOpens(needs, join, b, cap);
    forall m | Runnable(env, s, m) && m != "b"
      ensures Before(env.graph, "b", m)
    {
      assert m == "c";
    }
    assert IsPick(env, s, "b");
    assert [PickStep] + [PickStep] == [PickStep, PickStep];
    PickRuns(env, [PickStep], "b");
    RunNodeFrame(env, s, "b", "a");
    RunNodeFrame(env, s, "b", "b");
    RunNodeFrame(env, s, "b", "c");
    RequestsAfterRun(env, s, "b");
  }

  lemma PickKeepsIdle(env: Env, events: seq<Event>, n: NodeId)
    requires IsPick(env, Reached(env, events), n) && Idle(Reached(env, events))
    requires ReplyTo(env, Reached(env, events), n).end != ProcessDied
    ensures Idle(Reached(env, events + [PickStep]))
  {
    PickRuns(env, events, n);
    RunKeepsIdle(env, Reached(env, events), n);
  }

  lemma BranchKeepsIdle(b: Reply)
    requires b.end != ProcessDied
    ensures Idle(Reached(Scene(Fork([], [], "all"), OK, b), [PickStep, PickStep]))
  {
    hide RunNode;
    var env := Scene(Fork([], [], "all"), OK, b);
    EntryRuns(env);
    PickKeepsIdle(env, [], "a");
    assert [] + [PickStep] == [PickStep];
    BranchRuns([], "all", b);
    PickKeepsIdle(env, [PickStep], "b");
    assert [PickStep] + [PickStep] == [PickStep, PickStep];
  }

  // ---- nodes started before their requirements have succeeded --------------

  /** Event `ev` executes `n` while one of its prerequisites has not SUCCEEDED. */
  ghost predicate StartsEarly(env: Env, events: seq<Event>, ev: Event, n: NodeId) {
    var s, t := Reached(env, events), Reached(env, events + [ev]);
    && n in env.graph.nodes
    && |t.execs| == |s.execs| + 1 && t.execs[|s.execs|].node == n
    && !AllSucceeded(s, env.graph.nodes[n])
  }

  lemma PickStartsEarly(env: Env, events: seq<Event>, n: NodeId, r: NodeId)
    requires var s := Reached(env, events);
      && IsPick(env, s, n) && Executes(env, s, n)
      && r in env.graph.nodes[n].prerequisites && !HasStatus(s, r, Succeeded)
    ensures StartsEarly(env, events, PickStep, n)
  {
    PickRuns(env, events, n);
    RunNodeFrame(env, Reached(env, events), n, n);
  }

  /** With "a" and "b" done, "c" is next once its join is met. */
  lemma WaiterIsNext(env: Env, s: State)
    requires env.graph.nodes.Keys == {"a", "b", "c"} && AttemptCap(env, "c") == 1
    requires HasRow(s, "c", NodeRow(Ready, 0, None)) && PrerequisitesMet(env.graph.nodes["c"], s)
    requires "a" in s.nodes && s.nodes["a"].status != Ready && "b" in s.nodes && s.nodes["b"].status != Ready
    ensures IsPick(env, s, "c") && Executes(env, s, "c")
  {
    hide Before, PrerequisitesMet;
    forall m | Runnable(env, s, m)
      ensures m == "c"
    {
      assert m in {"a", "b", "c"};
    }
  }

  lemma WaiterRuns(needs: seq<NodeId>, join: string, b: Reply)
    requires "b" in needs && !EndStatus(b.end).Succeeded?
    requires var env := Scene(Fork([], needs, join), OK, b);
      PrerequisitesMet(env.graph.nodes["c"], Reached(env, [PickStep, PickStep]))
    ensures StartsEarly(Scene(Fork([], needs, join), OK, b), [PickStep, PickStep], PickStep, "c")
  {
    var env := Scene(Fork([], needs, join), OK, b);
    var s := Reached(env, [PickStep, PickStep]);
    BranchRuns(needs, join, b);
    hide RunNode, Fold;
    WaiterIsNext(env, s);
    PickStartsEarly(env, [PickStep, PickStep], "c", "b");
  }

  /** A skipped prerequisite is as good as a succeeded one. */
  lemma StartsOnSkipped()
    ensures StartsEarly(
      Scene(Fork([], ["b"], "all"), OK, Ends(Returned(ResultSkipped, true))), [PickStep, PickStep], PickStep, "c")
  {
    BranchRuns(["b"], "all", Ends(Returned(ResultSkipped, true)));
    WaiterRuns(["b"], "all", Ends(Returned(ResultSkipped, true)));
  }

  /** A join of `any` starts while another prerequisite still waits for input. */
  lemma StartsOnAny()
    ensures StartsEarly(
      Scene(Fork([], ["a", "b"], "any"), OK, Ends(Returned(ResultWaitingForInput, true))),
      [PickStep, PickStep], PickStep, "c")
  {
    var b := Ends(Returned(ResultWaitingForInput, true));
    BranchRuns(["a", "b"], "any", b);
    assert IsSatisfied(Reached(Scene(Fork([], ["a", "b"], "any"), OK, b), [PickStep, PickStep]), "a");
    WaiterRuns(["a", "b"], "any", b);
  }

  /** The entry of an empty assessment starts whatever it requires. */
  lemma StartsEntry()
    ensures StartsEarly(Scene(Fork(["b"], [], "all"), OK, OK), [], PickStep, "a")
  {
    var env := Scene(Fork(["b"], [], "all"), OK, OK);
    EntryRuns(env);
    PickStartsEarly(env, [], "a", "b");
  }

  /** A direct run starts a node whose requirement has not even run. */
  lemma StartsDirectly()
    ensures StartsEarly(Scene(Fork([], ["b"], "all"), OK, OK), [PickStep], RunOne("c"), "c")
  {
    var env := Scene(Fork([], ["b"], "all"), OK, OK);
    var s := Reached(env, [PickStep]);
    ForkOpens(["b"], "all", OK);
    HistoryPush(env, Initial(map[]), [PickStep], RunOne("c"));
    RunNodeFrame(env, s, "c", "c");
    assert "b" in env.graph.nodes["c"].prerequisites && !HasStatus(s, "b", Succeeded);
  }

  // ---- the other differences -----------------------------------------------

  /** "c" could run, nothing runs, and still the report is WAITING: "b" waits for approval. */
  lemma RunnableButNotReported()
    ensures var env := Scene(Fork([], [], "all"), OK, Ends(Returned(ResultWaitingForApproval, true)));
      var s := Reached(env, [PickStep, PickStep]);
      Runnable(env, s, "c") && CompletionStatus(env, s) == CompletionWaiting
  {
    hide RunNode, CompletionStatus;
    var b := Ends(Returned(ResultWaitingForApproval, true));
    var env := Scene(Fork([], [], "all"), OK, b);
    BranchRuns([], "all", b);
    BranchKeepsIdle(b);
    WaitingIsReported(env, Reached(env, [PickStep, PickStep]), "b");
  }

  /** A waiting mandatory node decides the report while nothing runs. */
  lemma WaitingIsReported(env: Env, s: State, n: NodeId)
    requires n in env.graph.nodes && !env.graph.nodes[n].optional
    requires HasStatus(s, n, WaitingForApproval) && Idle(s)
    ensures CompletionStatus(env, s) == CompletionWaiting
  {
    ReportMeans(env, s);
  }

  /** The entry asks for material, with itself as the resume node, and waits. */
  function Asking(): Reply {
    Reply(Returned(ResultWaitingForInput, true), [RequestSpec("export", "BLOCKING", "")], map[])
  }

  lemma EntryAsks()
    ensures var env := Scene(Fork([], [], "all"), Asking(), OK);
      var s := Reached(env, [PickStep]);
      HasStatus(s, "a", WaitingForInput) && s.requests == [RequestOf("a", Asking().specs[0])]
  {
    var env := Scene(Fork([], [], "all"), Asking(), OK);
    EntryRuns(env);
    RunNodeFrame(env, Initial(map[]), "a", "a");
    ExecutedRows(env, Initial(map[]), "a");
    assert Asking().specs[1..] == [];
  }

  /** Answering its request does not leave the node SUCCEEDED. */
  lemma AnsweredButNotSucceeded()
    ensures var env := Scene(Fork([], [], "all"), Asking(), OK);
      var s, t := Reached(env, [PickStep]), Reached(env, [PickStep, AnswerEvent(0, true, map[])]);
      && HasStatus(s, "a", WaitingForInput) && CanAnswer(s, 0, true) && s.requests[0].node == "a"
      && t.requests[0].status == Resolved && HasStatus(t, "a", Ready)
  {
    var env := Scene(Fork([], [], "all"), Asking(), OK);
    var s, answer := Reached(env, [PickStep]), AnswerEvent(0, true, map[]);
    hide RunNode;
    EntryAsks();
    HistoryPush(env, Initial(map[]), [PickStep], answer);
    assert [PickStep] + [answer] == [PickStep, answer];
    AnswerEffect(env, s, 0, map[], "a");
  }

  /** Recovery after a crash in the entry: the attempt is gone and the execution still reads RUNNING. */
  lemma CrashedAndRecovered()
    ensures var env := Scene(Fork([], [], "all"), Ends(ProcessDied), OK);
      var s, t := Reached(env, [PickStep]), Reached(env, [PickStep, EngineOpened]);
      && HasStatus(s, "a", Running) && HasRow(t, "a", NodeRow(Ready, 1, None))
      && t.execs == [Execution("a", 1, Running, false)]
  {
    var env := Scene(Fork([], [], "all"), Ends(ProcessDied), OK);
    EntryRuns(env);
    RunNodeFrame(env, Initial(map[]), "a", "a");
    HistoryPush(env, Initial(map[]), [PickStep], EngineOpened);
    assert [PickStep] + [EngineOpened] == [PickStep, EngineOpened];
    var s := Reached(env, [PickStep]);
    assert Recover(s).execs == s.execs;
  }

  lemma BranchIsStuck(env: Env, t: State)
    requires env.graph.nodes.Keys == {"a", "b", "c"} && env.graph.entry == "a" && AttemptCap(env, "b") == 1
    requires env.graph.nodes["b"].phase == env.graph.nodes["c"].phase
    requires env.graph.nodes["b"].prerequisites == [] && env.graph.nodes["b"].join == "all"
    requires HasStatus(t, "a", Succeeded) && HasStatus(t, "c", Ready)
    requires HasRow(t, "b", NodeRow(Ready, 1, None))
    ensures Stuck(env, t)
  {
    forall m | Runnable(env, t, m) && m != "b"
      ensures Before(env.graph, "b", m)
    {
      assert m == "c";
    }
    assert IsPick(env, t, "b");
    Selection.PickUnique(env, t, "b");
  }

  /** "b" fails for good and is unblocked: from then on "c" is starved. */
  lemma UnblockedAndStuck()
    ensures var env := Scene(Fork([], [], "all"), OK, Ends(RaisedError));
      var s, t := Reached(env, [PickStep, PickStep]), Reached(env, [PickStep, PickStep, UnblockEvent("b")]);
      && HasStatus(s, "b", Failed) && UsedUp(env, s, "b")
      && Stuck(env, t) && Quiet(env, t) && Runnable(env, t, "c")
  {
    hide RunNode, Stuck;
    var env := Scene(Fork([], [], "all"), OK, Ends(RaisedError));
    var s, unblock := Reached(env, [PickStep, PickStep]), UnblockEvent("b");
    BranchRuns([], "all", Ends(RaisedError));
    ForkOpens([], "all", Ends(RaisedError));
    BranchKeepsIdle(Ends(RaisedError));
    HistoryPush(env, Initial(map[]), [PickStep, PickStep], unblock);
    assert [PickStep, PickStep] + [unblock] == [PickStep, PickStep, unblock];
    BranchIsStuck(env, Unblock(s, "b"));
    assert forall m :: HasStatus(Unblock(s, "b"), m, Running) ==> HasStatus(s, m, Running);
  }

  // ---- nodes that succeed twice --------------------------------------------

  /** A node that has SUCCEEDED is executed again by a direct run. */
  lemma RunAgainDirectly()
    ensures var env := Scene(Fork([], [], "all"), OK, OK, 2);
      var s, t := Reached(env, [PickStep]), Reached(env, [PickStep, RunOne("a")]);
      HasStatus(s, "a", Succeeded) && !OnceAtMost(t.execs, "a")
  {
    var env := Scene(Fork([], [], "all"), OK, OK, 2);
    var s := Reached(env, [PickStep]);
    ForkOpens([], "all", OK, 2);
    HistoryPush(env, Initial(map[]), [PickStep], RunOne("a"));
    assert [PickStep] + [RunOne("a")] == [PickStep, RunOne("a")];
    TwoSuccesses(env, s, "a");
  }

  lemma TwoSuccesses(env: Env, s: State, n: NodeId)
    requires Executes(env, s, n) && EndStatus(ReplyTo(env, s, n).end) == Succeeded
    requires SuccessAt(s.execs, 0, n)
    ensures !OnceAtMost(RunNode(env, s, n).state.execs, n)
  {
    RunNodeFrame(env, s, n, n);
    var execs := RunNode(env, s, n).state.execs;
    assert SuccessAt(execs, 0, n) && SuccessAt(execs, |s.execs|, n);
  }

  /** "b" asks for material that "a" is to take up again. */
  function AskingForEntry(): Reply {
    Reply(Returned(ResultWaitingForInput, true), [RequestSpec("export", "BLOCKING", "a")], map[])
  }

  lemma BranchAsks()
    ensures var env := Scene(Fork([], [], "all"), OK, AskingForEntry(), 2);
      var s := Reached(env, [PickStep, PickStep]);
      && HasRow(s, "a", NodeRow(Succeeded, 1, Some(0))) && HasStatus(s, "b", WaitingForInput)
      && HasRow(s, "c", NodeRow(Ready, 0, None))
      && |s.execs| == 2 && SuccessAt(s.execs, 0, "a")
      && s.requests == [RequestOf("b", AskingForEntry().specs[0])]
  {
    hide RunNode;
    ForkOpens([], "all", AskingForEntry(), 2);
    BranchRuns([], "all", AskingForEntry(), 2);
    assert AskingForEntry().specs[1..] == [];
  }

  /** The entry is next in order once it is READY again. */
  lemma EntryIsNext(env: Env, t: State)
    requires env.graph.nodes.Keys == {"a", "b", "c"} && AttemptCap(env, "a") == 2
    requires env.graph.nodes["a"].phase == env.graph.nodes["c"].phase
    requires env.graph.nodes["a"].prerequisites == [] && env.graph.nodes["a"].join == "all"
    requires HasRow(t, "a", NodeRow(Ready, 1, None)) && HasStatus(t, "b", Succeeded)
    ensures IsPick(env, t, "a") && Executes(env, t, "a")
  {
    forall m | Runnable(env, t, m) && m != "a"
      ensures Before(env.graph, "a", m)
    {
      assert m == "c";
    }
  }

  /** An answer that resumes at a SUCCEEDED node makes the run loop execute it again. */
  lemma RunAgainAfterAnswer()
    ensures var env := Scene(Fork([], [], "all"), OK, AskingForEntry(), 2);
      var s := Reached(env, [PickStep, PickStep]);
      var t := Reached(env, [PickStep, PickStep, AnswerEvent(0, true, map[]), PickStep]);
      HasStatus(s, "a", Succeeded) && CanAnswer(s, 0, true) && !OnceAtMost(t.execs, "a")
  {
    hide RunNode;
    var env := Scene(Fork([], [], "all"), OK, AskingForEntry(), 2);
    var first, answer := [PickStep, PickStep], AnswerEvent(0, true, map[]);
    var s := Reached(env, first);
    BranchAsks();
    HistoryPush(env, Initial(map[]), first, answer);
    var u := Reached(env, first + [answer]);
    AnswerEffect(env, s, 0, map[], "a");
    EntryIsNext(env, u);
    PickRuns(env, first + [answer], "a");
    TwoSuccesses(env, u, "a");
    assert first + [answer] + [PickStep] == [PickStep, PickStep, answer, PickStep];
  }
}
