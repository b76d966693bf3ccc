/**
 * What one call of `run_node` and the two operator commands leave behind, said in terms
 * of the handler's reply and the stored rows alone.
 */
module ExecutionLaws {
  import opened Prelude
  import opened GraphModel
  import opened EngineState
  import opened EngineSpec
  import opened Ledger
  import opened Selection

  /** What the handler sees: its own row RUNNING, one attempt more, and its new execution. */
  function Called(s: State, n: NodeId): State {
    State(
      s.nodes[n := NodeRow(Running, Attempts(s, n) + 1, None)],
      s.execs + [Execution(n, Attempts(s, n) + 1, Running, false)],
      s.requests, s.phase, s.facts)
  }

  function HandlerReply(env: Env, s: State, n: NodeId): Reply {
    env.handler(n, Called(s, n))
  }

  lemma RepliesWhenCalled(env: Env, s: State, n: NodeId)
    ensures ReplyTo(env, s, n) == HandlerReply(env, s, n)
  {
    assert Begin(s, n) == Called(s, n);
  }

  // ---- refusals ------------------------------------------------------------

  /** WAITING_FOR_INPUT, WAITING_FOR_APPROVAL, CANCELLED and SKIPPED nodes are skipped over. */
  predicate IsHeld(s: State, n: NodeId) {
    || HasStatus(s, n, WaitingForInput) || HasStatus(s, n, WaitingForApproval)
    || HasStatus(s, n, Cancelled) || HasStatus(s, n, Skipped)
  }

  predicate NoAttemptsLeft(env: Env, s: State, n: NodeId)
    requires n in env.graph.nodes
  {
    Attempts(s, n) >= env.graph.nodes[n].maxAttempts || Attempts(s, n) >= env.maxNodeAttempts
  }

  predicate NeverActivated(s: State, n: NodeId) {
    n !in s.nodes || HasStatus(s, n, Pending)
  }

  /** When each refusal comes, in the order of the checks; a refusal changes nothing. */
  lemma RefusedExactly(env: Env, s: State, n: NodeId)
    ensures var r := RunNode(env, s, n);
      && (r.attempt == Rejected(UnknownNode) <==> n !in env.graph.nodes)
      && (r.attempt.Done? && r.attempt.outcome.execution.None? <==> n in env.graph.nodes && IsHeld(s, n))
      && (r.attempt == Rejected(AttemptsExhausted) <==>
            n in env.graph.nodes && !IsHeld(s, n) && NoAttemptsLeft(env, s, n))
      && (r.attempt == Rejected(MissingPrerequisite) <==>
            n in env.graph.nodes && !IsHeld(s, n) && !NoAttemptsLeft(env, s, n) &&
            NeverActivated(s, n) && n != env.graph.entry)
      && (Executes(env, s, n) <==>
            n in env.graph.nodes && !IsHeld(s, n) && !NoAttemptsLeft(env, s, n) &&
            (NeverActivated(s, n) ==> n == env.graph.entry))
      && (!Executes(env, s, n) ==> r.state == s)
  {
  }

  // ---- how an execution ends -----------------------------------------------

  predicate Rejects(end: HandlerEnd) {
    end == Returned(Success, false)
  }

  /** The reply alone decides the status the node is left in, and whether an error is recorded. */
  lemma EndsByReply(env: Env, s: State, n: NodeId)
    requires Executes(env, s, n)
    ensures var end, t := HandlerReply(env, s, n).end, RunNode(env, s, n).state;
      && (HasStatus(t, n, Succeeded) <==> end == Returned(Success, true))
      && (HasStatus(t, n, Failed) <==>
            end == RaisedError || Rejects(end) || (end.Returned? && end.result == ResultFailed))
      && (HasStatus(t, n, WaitingForInput) <==> end.Returned? && end.result == ResultWaitingForInput)
      && (HasStatus(t, n, WaitingForApproval) <==>
            end == RaisedQuota || (end.Returned? && end.result == ResultWaitingForApproval))
      && (HasStatus(t, n, Skipped) <==> end.Returned? && end.result == ResultSkipped)
      && (HasStatus(t, n, Running) <==> end == ProcessDied)
    ensures var end, t := HandlerReply(env, s, n).end, RunNode(env, s, n).state;
      && Attempts(t, n) == Attempts(s, n) + (if end == RaisedQuota then 0 else 1)
      && |t.execs| == |s.execs| + 1 && t.execs[..|s.execs|] == s.execs
      && t.execs[|s.execs|].node == n && t.execs[|s.execs|].attempt == Attempts(s, n) + 1
      && HasStatus(t, n, t.execs[|s.execs|].status)
      && (t.execs[|s.execs|].error <==> end == RaisedQuota || end == RaisedError || Rejects(end))
      && t.nodes[n].lastExecution == (if end == ProcessDied then None else Some(|s.execs|))
  {
    RepliesWhenCalled(env, s, n);
    RunNodeFrame(env, s, n, n);
  }

  /** Anything but an accepted success leaves every other row as it was. */
  lemma OnlySuccessRoutes(env: Env, s: State, n: NodeId, m: NodeId)
    requires Executes(env, s, n) && HandlerReply(env, s, n).end != Returned(Success, true) && m != n
    ensures SameRow(s, RunNode(env, s, n).state, m)
  {
    RepliesWhenCalled(env, s, n);
    RunNodeFrame(env, s, n, m);
  }

  // ---- what the conditions read, and what they route -----------------------

  /** The state in which `n` has just succeeded: its row, its execution, the reply's requests and facts. */
  function JustSucceeded(env: Env, s: State, n: NodeId): State {
    var t := RunNode(env, s, n).state;
    State(s.nodes[n := NodeRow(Succeeded, Attempts(s, n) + 1, Some(|s.execs|))],
          t.execs, t.requests, s.phase, HandlerReply(env, s, n).facts)
  }

  lemma SucceededState(env: Env, s: State, n: NodeId)
    requires Executes(env, s, n) && HandlerReply(env, s, n).end == Returned(Success, true)
    ensures Executed(env, s, n) == JustSucceeded(env, s, n)
    ensures EndStatus(ReplyTo(env, s, n).end) == Succeeded
  {
    RepliesWhenCalled(env, s, n);
    ExecutedRows(env, s, n);
    RequestsLeaveRows(Begin(s, n), n, ReplyTo(env, s, n).specs);
    RequestsKeepRest(Begin(s, n), n, ReplyTo(env, s, n).specs);
  }

  lemma {:induction false} RequestsKeepRest(s: State, n: NodeId, specs: seq<RequestSpec>)
    ensures CreateRequests(s, n, specs).phase == s.phase
    ensures CreateRequests(s, n, specs).facts == s.facts
    decreases |specs|
  {
    if specs != [] {
      RequestsKeepRest(CreateRequest(s, RequestOf(n, specs[0])), n, specs[1..]);
    }
  }

  /** Unconditional edges always hold, others when their predicate does. */
  predicate Fires(env: Env, e: Edge, n: NodeId, u: State) {
    e.source == n && (e.condition == None || env.predicates(e.condition.value, u))
  }

  predicate MayBeActivated(s: State, m: NodeId) {
    || m !in s.nodes
    || HasStatus(s, m, Pending) || HasStatus(s, m, Ready) || HasStatus(s, m, Running)
    || HasStatus(s, m, Failed) || HasStatus(s, m, Superseded)
  }

  /** Does a firing edge of `n` lead to `m`? */
  ghost predicate LeadsTo(env: Env, n: NodeId, m: NodeId, u: State) {
    exists e :: e in env.graph.edges && e.target == m && Fires(env, e, n, u)
  }

  lemma ActivatedExactly(env: Env, u: State, n: NodeId, m: NodeId)
    ensures m in Activated(env, u, n) <==> MayBeActivated(u, m) && LeadsTo(env, n, m, u)
  {
    if LeadsTo(env, n, m, u) {
      var e :| e in env.graph.edges && e.target == m && Fires(env, e, n, u);
      assert MayBeActivated(u, m) ==> Activates(env, u, n, e);
    }
    if m in Activated(env, u, n) {
      var e :| e in env.graph.edges && Activates(env, u, n, e) && e.target == m;
      assert Fires(env, e, n, u);
    }
  }

  /** After an accepted success exactly the open targets of firing edges are READY, with their attempts. */
  lemma RoutesExactly(env: Env, s: State, n: NodeId, m: NodeId)
    requires Executes(env, s, n) && HandlerReply(env, s, n).end == Returned(Success, true) && m != n
    ensures var u, t := JustSucceeded(env, s, n), RunNode(env, s, n).state;
      if MayBeActivated(s, m) && LeadsTo(env, n, m, u)
      then HasRow(t, m, NodeRow(Ready, Attempts(s, m), None))
      else SameRow(s, t, m)
  {
    hide RunNode, Activated, LeadsTo;
    var u := JustSucceeded(env, s, n);
    SucceededState(env, s, n);
    RunNodeFrame(env, s, n, m);
    ActivatedExactly(env, u, n, m);
  }

  lemma {:induction false} FiringMembers(env: Env, u: State, edges: seq<Edge>, e: Edge)
    ensures e in Firing(env, u, edges) <==> e in edges && EdgeHolds(env, e, u)
  {
    if edges != [] {
      FiringMembers(env, u, edges[1..], e);
      assert edges == [edges[0]] + edges[1..];
    }
  }

  lemma {:induction false} FiringSorted(env: Env, u: State, edges: seq<Edge>)
    requires SortedByPriority(edges)
    ensures SortedByPriority(Firing(env, u, edges))
  {
    if edges != [] {
      FiringSorted(env, u, edges[1..]);
      var rest := Firing(env, u, edges[1..]);
      forall k | 0 <= k < |rest|
        ensures edges[0].priority <= rest[k].priority
      {
        FiringMembers(env, u, edges[1..], rest[k]);
        var j :| 0 <= j < |edges[1..]| && edges[1..][j] == rest[k];
        assert edges[j + 1] == rest[k];
      }
    }
  }

  /** The reported outcome: node, execution, status, and the firing edges in priority order. */
  lemma OutcomeReports(env: Env, s: State, n: NodeId, e: Edge)
    requires Executes(env, s, n) && HandlerReply(env, s, n).end != ProcessDied
    ensures var r, success := RunNode(env, s, n), HandlerReply(env, s, n).end == Returned(Success, true);
      && r.attempt.Done? && r.attempt.outcome.node == n && r.attempt.outcome.execution == Some(|s.execs|)
      && HasStatus(r.state, n, r.attempt.outcome.status)
      && (e in r.attempt.outcome.fired <==>
            success && e in env.graph.edges && Fires(env, e, n, JustSucceeded(env, s, n)))
      && forall i, j :: 0 <= i < j < |r.attempt.outcome.fired| ==>
           r.attempt.outcome.fired[i].priority <= r.attempt.outcome.fired[j].priority
  {
    RepliesWhenCalled(env, s, n);
    RunNodeFrame(env, s, n, n);
    if HandlerReply(env, s, n).end == Returned(Success, true) {
      var u := JustSucceeded(env, s, n);
      SucceededState(env, s, n);
      FiringMembers(env, u, Outgoing(env.graph, n), e);
      OutgoingMembers(env.graph, n, e);
      SortIsStable(EdgesFrom(env.graph.edges, n), 0);
      FiringSorted(env, u, Outgoing(env.graph, n));
    }
  }

  // ---- facts, phase, requests ----------------------------------------------

  lemma PhaseMoves(s: State, node: NodeDef)
    ensures AdvancePhase(s, node).facts == s.facts
    ensures AdvancePhase(s, node).phase ==
      if node.phaseGate && IsPhase(node.phase, '0', '7') then "phase" + [node.phase[5] + 1 as char] else s.phase
  {
    PhaseRanks(node.phase);
    if IsPhase(node.phase, '0', '7') {
      PhaseNames(PhaseRank(node.phase) + 1);
    }
  }

  /** The reply's facts are stored; an accepted success of a gate of phase 0 to 7 opens the next phase. */
  lemma FactsAndPhase(env: Env, s: State, n: NodeId)
    requires Executes(env, s, n)
    ensures var node, reply, t := env.graph.nodes[n], HandlerReply(env, s, n), RunNode(env, s, n).state;
      && t.facts == reply.facts
      && t.phase == if reply.end == Returned(Success, true) && node.phaseGate && IsPhase(node.phase, '0', '7')
                    then "phase" + [node.phase[5] + 1 as char] else s.phase
  {
    hide AdvancePhase, CreateRequests, IsPhase;
    RepliesWhenCalled(env, s, n);
    RequestsKeepRest(Begin(s, n), n, ReplyTo(env, s, n).specs);
    PhaseMoves(Route(env, Executed(env, s, n), n), env.graph.nodes[n]);
  }

  /** An open request of `n` for what the spec says; it resumes at `n` itself unless the spec names a node. */
  predicate AsksFor(r: Request, n: NodeId, spec: RequestSpec) {
    && r.node == n && r.missingInfo == spec.missingInfo && r.priority == spec.priority && r.status == Open
    && r.resumeNode == if spec.resumeNode == "" then n else spec.resumeNode
  }

  predicate FromSpec(r: Request, n: NodeId, specs: seq<RequestSpec>) {
    exists k :: 0 <= k < |specs| && AsksFor(r, n, specs[k])
  }

  predicate IsOpenFor(requests: seq<Request>, n: NodeId, missing: string) {
    exists i :: 0 <= i < |requests| && OpenAt(requests, i, n, missing)
  }

  lemma OneRequest(s: State, n: NodeId, spec: RequestSpec)
    ensures var requests := CreateRequest(s, RequestOf(n, spec)).requests;
      && s.requests <= requests && IsOpenFor(requests, n, spec.missingInfo)
      && forall i :: |s.requests| <= i < |requests| ==> AsksFor(requests[i], n, spec)
  {
    var requests := CreateRequest(s, RequestOf(n, spec)).requests;
    var found := OpenRequestFor(s, n, spec.missingInfo);
    var i := if found.Some? then found.value else |s.requests|;
    assert OpenAt(requests, i, n, spec.missingInfo);
  }

  lemma StaysOpenFor(before: seq<Request>, after: seq<Request>, n: NodeId, missing: string)
    requires before <= after && IsOpenFor(before, n, missing)
    ensures IsOpenFor(after, n, missing)
  {
    var i :| 0 <= i < |before| && OpenAt(before, i, n, missing);
    assert OpenAt(after, i, n, missing);
  }

  lemma {:induction false} RequestsOpened(s: State, n: NodeId, specs: seq<RequestSpec>)
    ensures var all := CreateRequests(s, n, specs).requests;
      && s.requests <= all
      && (forall k :: 0 <= k < |specs| ==> IsOpenFor(all, n, specs[k].missingInfo))
      && forall i :: |s.requests| <= i < |all| ==> FromSpec(all[i], n, specs)
    decreases |specs|
  {
    hide CreateRequest, OpenAt, IsOpenFor, AsksFor, RequestOf;
    if specs != [] {
      var one := CreateRequest(s, RequestOf(n, specs[0]));
      OneRequest(s, n, specs[0]);
      RequestsOpened(one, n, specs[1..]);
      var all := CreateRequests(s, n, specs).requests;
      StaysOpenFor(one.requests, all, n, specs[0].missingInfo);
      forall k | 0 < k < |specs|
        ensures IsOpenFor(all, n, specs[k].missingInfo)
      {
        assert specs[k] == specs[1..][k - 1];
      }
      forall i | |s.requests| <= i < |all|
        ensures FromSpec(all[i], n, specs)
      {
        if i < |one.requests| {
          assert AsksFor(all[i], n, specs[0]);
        } else {
          var k :| 0 <= k < |specs[1..]| && AsksFor(all[i], n, specs[1..][k]);
          assert AsksFor(all[i], n, specs[k + 1]);
        }
      }
    }
  }

  /** Every request of the reply is open afterwards, and every new row is one of them. */
  lemma RequestsMade(env: Env, s: State, n: NodeId)
    requires Executes(env, s, n)
    ensures var specs, requests := HandlerReply(env, s, n).specs, RunNode(env, s, n).state.requests;
      && s.requests <= requests
      && (forall k :: 0 <= k < |specs| ==> IsOpenFor(requests, n, specs[k].missingInfo))
      && forall i :: |s.requests| <= i < |requests| ==> FromSpec(requests[i], n, specs)
  {
    RepliesWhenCalled(env, s, n);
    ExecutedRows(env, s, n);
    RequestsOpened(Begin(s, n), n, ReplyTo(env, s, n).specs);
  }

  // ---- operator commands ---------------------------------------------------

  /** WAITING_FOR_APPROVAL, FAILED, RUNNING and READY rows become READY with their attempts; nothing else changes. */
  lemma UnblockExactly(s: State, n: NodeId, m: NodeId)
    ensures var t := Unblock(s, n);
      && (if m == n && (HasStatus(s, n, WaitingForApproval) || HasStatus(s, n, Failed) ||
                        HasStatus(s, n, Running) || HasStatus(s, n, Ready))
          then HasRow(t, n, NodeRow(Ready, Attempts(s, n), None)) else SameRow(s, t, m))
      && t == s.(nodes := t.nodes)
  {
  }

  /** A quota hold that is unblocked has cost no attempt, and the node is READY again. */
  lemma QuotaHoldReleased(env: Env, s: State, n: NodeId)
    requires Executes(env, s, n) && HandlerReply(env, s, n).end == RaisedQuota
    ensures HasRow(History(env, s, [RunOne(n), UnblockEvent(n)]), n, NodeRow(Ready, Attempts(s, n), None))
  {
    EndsByReply(env, s, n);
    assert [RunOne(n), UnblockEvent(n)][1..] == [UnblockEvent(n)];
    assert [UnblockEvent(n)][1..] == [];
    var held := RunNode(env, s, n).state;
    assert Fold(Effect(env), held, [UnblockEvent(n)]) == Unblock(held, n);
  }

  /** An answer needs an OPEN request and material; then it resolves this request alone and stores the new facts. */
  lemma AnswerExactly(env: Env, s: State, id: nat, hasMaterial: bool, newFacts: map<string, int>)
    ensures var t := Answer(env, s, id, hasMaterial, newFacts);
      if id < |s.requests| && s.requests[id].status == Open && hasMaterial
      then
        && t.requests == s.requests[id := s.requests[id].(status := Resolved)]
        && t.facts == newFacts && t.execs == s.execs && t.phase == s.phase
      else t == s
  {
  }
}
