/**
 * The engine's objects: the repository and its tables, the handler's context, the
 * graph engine, and the application context with the operator commands.
 */
module Engine {
  import opened Prelude
  import opened GraphModel
  import opened EngineState
  import opened EngineSpec
  import opened ExecutionLaws
  import opened Selection
  import opened Termination

  class Repository {
    var nodeStates: map<NodeId, NodeRow>
    var executions: seq<Execution>
    var requests: seq<Request>
    var phase: string
    var facts: map<string, int>

    function Contents(): State
      reads this
    {
      State(nodeStates, executions, requests, phase, facts)
    }

    constructor (facts: map<string, int>)
      ensures Contents() == Initial(facts)
    {
      nodeStates := map[];
      executions := [];
      requests := [];
      phase := "phase0";
      this.facts := facts;
    }

    method UpsertNodeState(n: NodeId, status: Status, attempts: Option<int>, lastExecution: Option<nat>)
      modifies this`nodeStates
      ensures Contents() == Upsert(old(Contents()), n, status, attempts, lastExecution)
    {
      if n !in nodeStates {
        nodeStates := nodeStates[n := NodeRow(status, attempts.GetOr(0), lastExecution)];
      } else {
        var newAttempts := if attempts.None? then nodeStates[n].attempts else attempts.value;
        nodeStates := nodeStates[n := NodeRow(status, newAttempts, lastExecution)];
      }
    }

    method CreateExecution(n: NodeId, attempt: int) returns (id: nat)
      modifies this`executions
      ensures id == |old(executions)|
      ensures executions == old(executions) + [Execution(n, attempt, Running, false)]
    {
      id := |executions|;
      executions := executions + [Execution(n, attempt, Running, false)];
    }

    method FinishExecution(id: nat, status: Status, error: bool)
      modifies this`executions
      ensures Contents() == Finish(old(Contents()), id, status, error)
    {
      if id < |executions| {
        executions := executions[id := executions[id].(status := status, error := error)];
      }
    }

    /** False when the same information is already being asked for. */
    method CreateRequest(r: Request) returns (created: bool)
      modifies this`requests
      ensures Contents() == EngineState.CreateRequest(old(Contents()), r)
      ensures created <==> forall i :: !OpenAt(old(requests), i, r.node, r.missingInfo)
      ensures created ==> requests == old(requests) + [r]
    {
      var existing := OpenRequestFor(Contents(), r.node, r.missingInfo);
      if existing.Some? {
        return false;
      }
      requests := requests + [r];
      created := true;
    }

    method ResolveRequest(id: nat, status: RequestStatus) returns (resolved: bool)
      modifies this`requests
      ensures resolved <==> id < |old(requests)| && old(requests)[id].status == Open
      ensures Contents() == EngineState.ResolveRequest(old(Contents()), id, status)
    {
      if id >= |requests| || requests[id].status != Open {
        return false;
      }
      requests := requests[id := requests[id].(status := status)];
      resolved := true;
    }
  }

  datatype InputResult = RequestId(id: nat) | HumanRequestError

  class NodeContext {
    const repo: Repository
    const node: NodeId

    constructor (repo: Repository, node: NodeId)
      ensures this.repo == repo && this.node == node
    {
      this.repo := repo;
      this.node := node;
    }

    /** Always yields the id of an open request for this node and information. */
    method RequestHumanInput(spec: RequestSpec) returns (r: InputResult)
      modifies repo
      ensures repo.Contents() == EngineState.CreateRequest(old(repo.Contents()), RequestOf(node, spec))
      ensures r.RequestId? && OpenAt(repo.requests, r.id, node, spec.missingInfo)
    {
      var request := RequestOf(node, spec);
      var created := repo.CreateRequest(request);
      if created {
        return RequestId(|repo.requests| - 1);
      }
      for i := 0 to |repo.requests|
        invariant forall k :: 0 <= k < i ==> !OpenAt(repo.requests, k, node, spec.missingInfo)
      {
        var row := repo.requests[i];
        if row.status == Open && row.node == node && row.missingInfo == spec.missingInfo {
          return RequestId(i);
        }
      }
      return HumanRequestError;
    }
  }

  class GraphEngine {
    const env: Env
    const repo: Repository
    var transitions: int

    constructor (env: Env, repo: Repository)
      ensures this.env == env && this.repo == repo && transitions == 0
    {
      this.env := env;
      this.repo := repo;
      transitions := 0;
    }

    /** Whether the join is satisfied and, if not, which prerequisites are reported missing. */
    method CheckPrerequisites(node: NodeDef, state: State) returns (met: bool, missing: seq<NodeId>)
      ensures met <==> PrerequisitesMet(node, state)
      ensures met ==> missing == []
      ensures !met ==> missing != [] || node.prerequisites == []
      ensures node.join != "any" ==>
        forall r :: r in missing <==> r in node.prerequisites && !IsSatisfied(state, r)
      ensures node.join == "any" && !met ==> missing == node.prerequisites
    {
      var satisfied: seq<NodeId> := [];
      missing := [];
      for i := 0 to |node.prerequisites|
        invariant forall r :: r in satisfied <==> r in node.prerequisites[..i] && IsSatisfied(state, r)
        invariant forall r :: r in missing <==> r in node.prerequisites[..i] && !IsSatisfied(state, r)
      {
        var r := node.prerequisites[i];
        assert node.prerequisites[..i + 1] == node.prerequisites[..i] + [r];
        if r in state.nodes && (state.nodes[r].status == Succeeded || state.nodes[r].status == Skipped) {
          satisfied := satisfied + [r];
        } else {
          missing := missing + [r];
        }
      }
      assert node.prerequisites[..|node.prerequisites|] == node.prerequisites;
      if node.join == "any" {
        met := |satisfied| > 0;
        assert met ==> satisfied[0] in satisfied;
        missing := if met then [] else node.prerequisites;
      } else {
        met := |missing| == 0;
        assert !met ==> missing[0] in missing;
      }
    }

    method IsCandidate(id: NodeId, state: State) returns (yes: bool)
      requires id in env.graph.nodes
      ensures yes <==> Runnable(env, state, id)
    {
      if id !in state.nodes {
        yes := state.nodes == map[] && id == env.graph.entry;
      } else if state.nodes[id].status != Ready {
        yes := false;
      } else {
        var met, _ := CheckPrerequisites(env.graph.nodes[id], state);
        yes := met;
      }
    }

    /** The runnable node of least (phase rank, id), whatever order the nodes are visited in. */
    method NextRunnable() returns (r: Option<NodeId>)
      ensures r == Pick(env, repo.Contents())
      ensures r.Some? <==> exists n :: MayStart(env, repo.Contents(), n)
      ensures r.Some? ==> MayStart(env, repo.Contents(), r.value)
    {
      PickMayStart(env, repo.Contents());
      var state := repo.Contents();
      var todo := env.graph.nodes.Keys;
      r := None;
      while todo != {}
        invariant todo <= env.graph.nodes.Keys
        invariant r.Some? ==> r.value !in todo && Runnable(env, state, r.value)
        invariant r.Some? ==> forall m :: Runnable(env, state, m) && m !in todo && m != r.value ==>
          Before(env.graph, r.value, m)
        invariant r.None? ==> forall m :: Runnable(env, state, m) ==> m in todo
      {
        var id :| id in todo;
        todo := todo - {id};
        var candidate := IsCandidate(id, state);
        if candidate {
          if r.None? {
            r := Some(id);
          } else {
            BeforeTotal(env.graph, id, r.value);
            if Before(env.graph, id, r.value) {
              forall m | Runnable(env, state, m) && m !in todo && m != id
                ensures Before(env.graph, id, m)
              {
                if m != r.value {
                  BeforeTransitive(env.graph, id, r.value, m);
                }
              }
              r := Some(id);
            }
          }
        }
      }
      if r.Some? {
        PickUnique(env, state, r.value);
      }
    }

    /** Makes the target of a firing edge READY, unless its stored status forbids it. */
    method Activate(m: NodeId, ghost snapshot: State, ghost ready: set<NodeId>)
      requires repo.Contents() == MakeReady(snapshot, ready)
      requires AllEligible(snapshot, ready)
      modifies repo
      ensures repo.Contents() == MakeReady(snapshot, if Eligible(snapshot, m) then ready + {m} else ready)
    {
      var next := if m in repo.nodeStates then Some(repo.nodeStates[m].status) else None;
      if next == Some(Succeeded) {
        return;
      }
      if next.Some? && Blocked(next.value) {
        return;
      }
      repo.UpsertNodeState(m, Ready, None, None);
      assert repo.nodeStates == MakeReady(snapshot, ready + {m}).nodes;
    }

    /** Evaluates one edge in the snapshot and activates its target when it fires. */
    method TakeEdge(edge: Edge, snapshot: State, ghost walked: seq<Edge>) returns (fires: bool)
      requires repo.Contents() == MakeReady(snapshot, ReadyAlong(env, snapshot, walked))
      modifies repo
      ensures fires <==> EdgeHolds(env, edge, snapshot)
      ensures repo.Contents() == MakeReady(snapshot, ReadyAlong(env, snapshot, walked + [edge]))
    {
      hide MakeReady, ReadyAlong, Eligible;
      FiringAppend(env, snapshot, walked, edge);
      ReadyIsEligible(env, snapshot, walked);
      ghost var ready := ReadyAlong(env, snapshot, walked);
      assert ready + {} == ready;
      fires := EdgeHolds(env, edge, snapshot);
      if fires {
        Activate(edge.target, snapshot, ready);
      }
    }

    /** Takes every outgoing edge whose condition holds in one snapshot. */
    method RouteFrom(n: NodeId) returns (fired: seq<Edge>)
      modifies repo
      ensures repo.Contents() == Route(env, old(repo.Contents()), n)
      ensures fired == Firing(env, old(repo.Contents()), Outgoing(env.graph, n))
    {
      hide MakeReady, Outgoing, Activated, Firing, ReadyAlong, EdgeHolds;
      var snapshot := repo.Contents();
      var out := Outgoing(env.graph, n);
      fired := [];
      MakeReadyNothing(snapshot);
      WalkNothing(env, snapshot);
      assert out[..0] == [];
      for i := 0 to |out|
        invariant repo.Contents() == MakeReady(snapshot, ReadyAlong(env, snapshot, out[..i]))
        invariant fired == Firing(env, snapshot, out[..i])
      {
        FiringAppend(env, snapshot, out[..i], out[i]);
        assert out[..i + 1] == out[..i] + [out[i]];
        var fires := TakeEdge(out[i], snapshot, out[..i]);
        if fires {
          fired := fired + [out[i]];
        } else {
          assert Firing(env, snapshot, out[..i]) + [] == Firing(env, snapshot, out[..i]);
        }
      }
      assert out[..|out|] == out;
      RouteTargets(env, snapshot, n);
    }

    /** Runs the handler and lets it open its requests and change facts. */
    method CallHandler(n: NodeId) returns (end: HandlerEnd)
      modifies repo
      ensures end == env.handler(n, old(repo.Contents())).end
      ensures repo.Contents() == HandlerEffects(old(repo.Contents()), n, env.handler(n, old(repo.Contents())))
    {
      var reply := env.handler(n, repo.Contents());
      var context := new NodeContext(repo, n);
      ghost var target := EngineState.CreateRequests(repo.Contents(), n, reply.specs);
      for i := 0 to |reply.specs|
        invariant CreateRequests(repo.Contents(), n, reply.specs[i..]) == target
      {
        var rest := reply.specs[i..];
        assert rest[0] == reply.specs[i] && rest[1..] == reply.specs[i + 1..];
        var _ := context.RequestHumanInput(reply.specs[i]);
      }
      repo.facts := reply.facts;
      end := reply.end;
    }

    method RecordEnd(n: NodeId, id: nat, attempts: int, end: HandlerEnd)
      modifies repo
      ensures repo.Contents() == Record(old(repo.Contents()), n, id, attempts, end)
    {
      match end {
        case ProcessDied =>
        case RaisedQuota =>
          repo.FinishExecution(id, WaitingForApproval, true);
          repo.UpsertNodeState(n, WaitingForApproval, Some(attempts), Some(id));
        case RaisedError =>
          repo.FinishExecution(id, Failed, true);
          repo.UpsertNodeState(n, Failed, Some(attempts + 1), Some(id));
        case Returned(result, valid) =>
          if result == Success && !valid {
            repo.FinishExecution(id, Failed, true);
            repo.UpsertNodeState(n, Failed, Some(attempts + 1), Some(id));
          } else {
            var persisted := match result
              case Success => Succeeded
              case ResultFailed => Failed
              case ResultWaitingForInput => WaitingForInput
              case ResultWaitingForApproval => WaitingForApproval
              case ResultSkipped => Skipped;
            repo.FinishExecution(id, persisted, false);
            repo.UpsertNodeState(n, persisted, Some(attempts + 1), Some(id));
          }
      }
    }

    /** The call once all checks have passed. */
    method Perform(n: NodeId) returns (attempt: Attempt)
      requires n in env.graph.nodes
      modifies repo
      ensures Step(repo.Contents(), attempt) == ExecuteNode(env, old(repo.Contents()), n)
    {
      var node := env.graph.nodes[n];
      var attempts := Attempts(repo.Contents(), n);
      var id := repo.CreateExecution(n, attempts + 1);
      repo.UpsertNodeState(n, Running, Some(attempts + 1), None);
      assert repo.Contents() == Begin(old(repo.Contents()), n);
      var end := CallHandler(n);
      RecordEnd(n, id, attempts, end);
      assert repo.Contents() == Executed(env, old(repo.Contents()), n);
      if end.ProcessDied? {
        return Died;
      }
      if EndStatus(end) == Succeeded {
        var fired := RouteFrom(n);
        if node.phaseGate && node.phase in PHASE_ORDER && PhaseRank(node.phase) + 1 < |PHASE_ORDER| {
          repo.phase := PHASE_ORDER[PhaseRank(node.phase) + 1];
        }
        return Done(RunOutcome(n, Some(id), Succeeded, fired));
      }
      return Done(RunOutcome(n, Some(id), EndStatus(end), []));
    }

    method RunOneNode(n: NodeId) returns (attempt: Attempt)
      modifies repo
      ensures Step(repo.Contents(), attempt) == RunNode(env, old(repo.Contents()), n)
      ensures Executes(env, old(repo.Contents()), n) ==>
        (HasStatus(repo.Contents(), n, Succeeded) <==>
           HandlerReply(env, old(repo.Contents()), n).end == Returned(Success, true))
      ensures !Executes(env, old(repo.Contents()), n) ==> repo.Contents() == old(repo.Contents())
    {
      hide ExecuteNode;
      RefusedExactly(env, repo.Contents(), n);
      if Executes(env, repo.Contents(), n) {
        EndsByReply(env, repo.Contents(), n);
      }
      if n !in env.graph.nodes {
        return Rejected(UnknownNode);
      }
      var node := env.graph.nodes[n];
      var status := StatusOf(repo.Contents(), n);
      var attempts := Attempts(repo.Contents(), n);
      if Blocked(status) {
        return Done(RunOutcome(n, None, status, []));
      }
      if attempts >= Min(node.maxAttempts, env.maxNodeAttempts) {
        return Rejected(AttemptsExhausted);
      }
      if status == Pending && n != env.graph.entry {
        return Rejected(MissingPrerequisite);
      }
      attempt := Perform(n);
    }

    /** One iteration: a pick, if there is one, and its execution. */
    method Iterate() returns (r: Option<Attempt>)
      modifies repo
      ensures r.None? ==> Iterations(env)(old(repo.Contents())) == None && repo.Contents() == old(repo.Contents())
      ensures r.Some? ==> Iterations(env)(old(repo.Contents())) == Some(Step(repo.Contents(), r.value))
    {
      hide RunNode;
      var pick := NextRunnable();
      if pick.None? {
        return None;
      }
      var attempt := RunOneNode(pick.value);
      r := Some(attempt);
    }

    method Run(maxSteps: nat) returns (outcomes: seq<RunOutcome>, end: RunEnd)
      modifies this, repo
      ensures EngineSpec.Run(repo.Contents(), outcomes, transitions, end)
           == EngineRun(env, old(repo.Contents()), maxSteps, old(transitions))
      ensures !Raises(end) ==>
        (end == CycleLimit <==>
           transitions >= env.graph.maxCycles * (if |env.graph.nodes| == 0 then 1 else |env.graph.nodes|))
      ensures transitions == old(transitions) + |outcomes|
    {
      hide Iterations, Bound;
      BoundStopsRun(env, repo.Contents(), maxSteps, transitions);
      outcomes := [];
      end := StepLimit;
      var bound := Bound(env.graph);
      ghost var target := EngineRun(env, repo.Contents(), maxSteps, transitions);
      var steps := maxSteps;
      while steps > 0
        invariant Prefixed(outcomes, EngineRun(env, repo.Contents(), steps, transitions)) == target
      {
        var attempt := Iterate();
        if attempt.None? {
          end := LoopExit(bound, transitions, Drained);
          return;
        }
        match attempt.value {
          case Rejected(e) =>
            end := RunRejected(e);
            return;
          case Died =>
            end := RunDied;
            return;
          case Done(o) =>
            ghost var rest := EngineRun(env, repo.Contents(), steps - 1, transitions + 1);
            assert outcomes + ([o] + rest.outcomes) == outcomes + [o] + rest.outcomes;
            outcomes := outcomes + [o];
            transitions := transitions + 1;
            if transitions >= bound {
              end := CycleLimit;
              return;
            }
            steps := steps - 1;
        }
      }
      end := LoopExit(bound, transitions, StepLimit);
    }

    /** The graph's nodes that pass `test`, sorted, whatever order they are visited in. */
    method NodesWhere(test: NodeId -> bool) returns (names: seq<NodeId>)
      ensures Ascending(names) && forall n :: n in names <==> n in env.graph.nodes && test(n)
      ensures names == [] <==> forall n :: n in env.graph.nodes ==> !test(n)
    {
      var todo := env.graph.nodes.Keys;
      names := [];
      while todo != {}
        invariant todo <= env.graph.nodes.Keys
        invariant Ascending(names) && forall n :: n in names <==> n in env.graph.nodes.Keys - todo && test(n)
      {
        var id :| id in todo;
        todo := todo - {id};
        if test(id) {
          InsertKeepsAscending(names, id);
          InsertMembers(names, id);
          names := Insert(names, id);
        }
      }
      assert names != [] ==> names[0] in names;
    }

    /** The open requests in their order, and how many of them block. */
    method ListOpenRequests() returns (open: seq<nat>, blocking: nat)
      ensures forall i, j :: 0 <= i < j < |open| ==> open[i] < open[j]
      ensures forall id: nat :: id in open <==> id < |repo.requests| && repo.requests[id].status == Open
      ensures blocking == |BlockingRequests(repo.requests)|
    {
      open, blocking := [], 0;
      ghost var counted: set<int> := {};
      for i := 0 to |repo.requests|
        invariant forall j :: 0 <= j < |open| ==> open[j] < i
        invariant forall j, k :: 0 <= j < k < |open| ==> open[j] < open[k]
        invariant forall id: nat :: id in open <==> id < i && repo.requests[id].status == Open
        invariant forall id :: id in counted <==> id < i && BlockingAt(repo.requests, id)
        invariant blocking == |counted|
      {
        var row := repo.requests[i];
        if row.status == Open {
          open := open + [i];
          if row.priority == "BLOCKING" {
            blocking := blocking + 1;
            counted := counted + {i};
          }
        }
      }
      assert counted == BlockingRequests(repo.requests);
    }

    /** Who waits, mandatory nodes and optional ones. */
    method WaitingLists() returns (waiting: seq<NodeId>, optionalWaiting: seq<NodeId>)
      ensures waiting != [] <==>
        || AnyStatus(env, repo.Contents(), true, WaitingForInput)
        || AnyStatus(env, repo.Contents(), true, WaitingForApproval)
      ensures optionalWaiting != [] <==> OptionalWaiting(env, repo.Contents())
    {
      var s, nodes := repo.Contents(), env.graph.nodes;
      waiting := NodesWhere(n => n in nodes && !nodes[n].optional && IsWaiting(s, n));
      optionalWaiting := NodesWhere(n => n in nodes && nodes[n].optional && IsWaiting(s, n));
    }

    /** Who runs, and which mandatory nodes failed or are not done. */
    method CompletionLists() returns (running: seq<NodeId>, failed: seq<NodeId>, unfinished: seq<NodeId>)
      ensures running != [] <==> AnyStatus(env, repo.Contents(), false, Running)
      ensures failed != [] <==> AnyStatus(env, repo.Contents(), true, Failed)
      ensures unfinished == [] <==> MandatoryDone(env, repo.Contents())
    {
      var s, nodes := repo.Contents(), env.graph.nodes;
      running := NodesWhere(n => HasStatus(s, n, Running));
      failed := NodesWhere(n => n in nodes && !nodes[n].optional && HasStatus(s, n, Failed));
      unfinished := NodesWhere(n => n in nodes && !nodes[n].optional && !IsSatisfied(s, n));
    }

    /** The decision chain; selection is only asked when nothing else decides. */
    method DecideCompletion(anyOpen: bool, blocking: nat) returns (status: Completion)
      requires anyOpen <==> OpenRequests(repo.Contents(), false)
      requires blocking > 0 <==> OpenRequests(repo.Contents(), true)
      ensures status == CompletionStatus(env, repo.Contents())
    {
      hide AnyStatus, OptionalWaiting, MandatoryDone, OpenRequests, Pick;
      var waiting, optionalWaiting := WaitingLists();
      var running, failed, unfinished := CompletionLists();
      if running != [] {
        return CompletionRunning;
      }
      if blocking > 0 || waiting != [] {
        return CompletionWaiting;
      }
      if failed != [] {
        return CompletionBlocked;
      }
      if unfinished != [] {
        var pick := NextRunnable();
        return if pick.Some? then CompletionRunning else CompletionBlocked;
      }
      return if optionalWaiting != [] || anyOpen then CompletedWithLimitations else Completed;
    }

    method AssessmentCompletion() returns (r: CompletionReport)
      ensures var s := repo.Contents();
        && r.status == CompletionStatus(env, s)
        && (forall i, j :: 0 <= i < j < |r.openRequests| ==> r.openRequests[i] < r.openRequests[j])
        && (forall id: nat :: id in r.openRequests <==> id < |s.requests| && s.requests[id].status == Open)
        && r.blockingCount == |BlockingRequests(s.requests)|
        && Ascending(r.waitingNodes) && Ascending(r.pendingNodes) && Ascending(r.failedNodes)
        && (forall n :: n in r.waitingNodes <==> n in env.graph.nodes && IsWaiting(s, n))
        && (forall n :: n in r.failedNodes <==> n in env.graph.nodes && HasStatus(s, n, Failed))
        && (forall n :: n in r.pendingNodes <==>
              n in env.graph.nodes && !env.graph.nodes[n].optional && StatusOf(s, n) == Pending)
    {
      hide Classify, Pick;
      var s, nodes := repo.Contents(), env.graph.nodes;
      var open, blocking := ListOpenRequests();
      OpenRequestsListed(s, open);
      var status := DecideCompletion(open != [], blocking);
      var waiting := NodesWhere(n => IsWaiting(s, n));
      var pending := NodesWhere(n => n in nodes && !nodes[n].optional && StatusOf(s, n) == Pending);
      var failed := NodesWhere(n => HasStatus(s, n, Failed));
      r := CompletionReport(status, open, blocking, waiting, pending, failed);
    }

    method RecoverStaleRunning() returns (recovered: set<NodeId>)
      modifies repo
      ensures repo.Contents() == Recover(old(repo.Contents()))
      ensures |repo.executions| == |old(repo.executions)|
      ensures forall i: nat :: i < |repo.executions| ==>
        if old(repo.executions)[i].status == Running &&
           exists n :: HasStatus(old(repo.Contents()), n, Running) &&
                       old(repo.nodeStates)[n].lastExecution == Some(i)
        then repo.executions[i] == old(repo.executions)[i].(status := Cancelled, error := false)
        else repo.executions[i] == old(repo.executions)[i]
      ensures repo.nodeStates.Keys == old(repo.nodeStates).Keys
      ensures forall n :: n in repo.nodeStates ==>
        if old(repo.nodeStates)[n].status == Running
        then repo.nodeStates[n] == NodeRow(Ready, old(repo.nodeStates)[n].attempts, None)
        else repo.nodeStates[n] == old(repo.nodeStates)[n]
      ensures forall n :: n in recovered <==> HasStatus(old(repo.Contents()), n, Running)
    {
      var rows := repo.nodeStates;
      ghost var start := repo.Contents();
      var todo := rows.Keys;
      recovered := {};
      assert repo.Contents() == RecoverSome(start, {}) by {
        assert RecoverSome(start, {}).execs == start.execs;
      }
      while todo != {}
        invariant todo <= rows.Keys
        invariant repo.Contents() == RecoverSome(start, rows.Keys - todo)
        invariant forall n :: n in recovered <==> n in rows.Keys - todo && rows[n].status == Running
      {
        var n :| n in todo;
        ghost var done := rows.Keys - todo;
        todo := todo - {n};
        assert rows.Keys - todo == done + {n};
        var row := rows[n];
        if row.status == Running {
          repo.UpsertNodeState(n, Ready, Some(row.attempts), None);
          if row.lastExecution.Some? && row.lastExecution.value < |repo.executions|
             && repo.executions[row.lastExecution.value].status == Running {
            repo.FinishExecution(row.lastExecution.value, Cancelled, false);
          }
          recovered := recovered + {n};
        }
        RecoverOne(start, done, n);
      }
      RecoverAll(start);
    }
  }

  lemma OpenRequestsListed(s: State, open: seq<nat>)
    requires forall id: nat :: id in open <==> id < |s.requests| && s.requests[id].status == Open
    ensures open != [] <==> OpenRequests(s, false)
    ensures |BlockingRequests(s.requests)| > 0 <==> OpenRequests(s, true)
  {
    assert open != [] ==> open[0] in open;
    if OpenRequests(s, true) {
      var i :| 0 <= i < |s.requests| && s.requests[i].status == Open && s.requests[i].priority == "BLOCKING";
      assert i in BlockingRequests(s.requests);
    } else {
      assert BlockingRequests(s.requests) == {};
    }
  }

  ghost function Prefixed(outcomes: seq<RunOutcome>, r: EngineSpec.Run): EngineSpec.Run {
    r.(outcomes := outcomes + r.outcomes)
  }

  /** What a walk along `edges` makes READY. */
  ghost function ReadyAlong(env: Env, s: State, edges: seq<Edge>): set<NodeId> {
    set e | e in edges && EdgeHolds(env, e, s) && Eligible(s, e.target) :: e.target
  }

  ghost predicate AllEligible(s: State, ready: set<NodeId>) {
    forall m :: m in ready ==> Eligible(s, m)
  }

  lemma ReadyIsEligible(env: Env, s: State, edges: seq<Edge>)
    ensures AllEligible(s, ReadyAlong(env, s, edges))
  {
  }

  lemma WalkNothing(env: Env, s: State)
    ensures Firing(env, s, []) == [] && ReadyAlong(env, s, []) == {}
  {
  }

  lemma {:induction false} FiringAppend(env: Env, s: State, edges: seq<Edge>, e: Edge)
    ensures Firing(env, s, edges + [e]) == Firing(env, s, edges) + (if EdgeHolds(env, e, s) then [e] else [])
    ensures ReadyAlong(env, s, edges + [e])
         == ReadyAlong(env, s, edges) + (if EdgeHolds(env, e, s) && Eligible(s, e.target) then {e.target} else {})
  {
    if edges == [] {
      assert edges + [e] == [e];
    } else {
      assert (edges + [e])[1..] == edges[1..] + [e];
      FiringAppend(env, s, edges[1..], e);
    }
    var a := ReadyAlong(env, s, edges + [e]);
    forall m | m in a
      ensures m in ReadyAlong(env, s, edges) || (m == e.target && EdgeHolds(env, e, s) && Eligible(s, m))
    {
      var k :| k in edges + [e] && EdgeHolds(env, k, s) && Eligible(s, k.target) && k.target == m;
    }
  }

  /** The walk in priority order and the one-shot activation agree. */
  lemma RouteTargets(env: Env, s: State, n: NodeId)
    ensures ReadyAlong(env, s, Outgoing(env.graph, n)) == Activated(env, s, n)
  {
    forall e
      ensures e in Outgoing(env.graph, n) <==> e in env.graph.edges && e.source == n
    {
      OutgoingMembers(env.graph, n, e);
    }
  }

  lemma MakeReadyNothing(s: State)
    ensures MakeReady(s, {}) == s
  {
    assert MakeReady(s, {}).nodes == s.nodes;
  }

  // ---- recovery, row by row ------------------------------------------------

  ghost predicate StaleIn(s: State, done: set<NodeId>, i: nat) {
    i < |s.execs| && s.execs[i].status == Running &&
    exists n :: n in done && n in s.nodes && s.nodes[n].status == Running && s.nodes[n].lastExecution == Some(i)
  }

  /** Recovery of the rows in `done` only. */
  ghost function RecoverSome(s: State, done: set<NodeId>): State {
    s.(nodes := map n | n in s.nodes ::
         if n in done && s.nodes[n].status == Running then NodeRow(Ready, s.nodes[n].attempts, None) else s.nodes[n],
       execs := seq(|s.execs|, i requires 0 <= i < |s.execs| =>
         if StaleIn(s, done, i) then s.execs[i].(status := Cancelled, error := false) else s.execs[i]))
  }

  ghost function RecoverStep(s: State, start: State, n: NodeId): State
    requires n in start.nodes
  {
    var row := start.nodes[n];
    if row.status != Running then s
    else
      var u := Upsert(s, n, Ready, Some(row.attempts), None);
      if row.lastExecution.Some? && row.lastExecution.value < |u.execs|
        && u.execs[row.lastExecution.value].status == Running
      then Finish(u, row.lastExecution.value, Cancelled, false)
      else u
  }

  lemma RecoverOne(start: State, done: set<NodeId>, n: NodeId)
    requires n in start.nodes && n !in done
    ensures RecoverStep(RecoverSome(start, done), start, n) == RecoverSome(start, done + {n})
  {
    var a := RecoverStep(RecoverSome(start, done), start, n);
    var b := RecoverSome(start, done + {n});
    assert a.nodes == b.nodes;
    forall i | 0 <= i < |start.execs|
      ensures a.execs[i] == b.execs[i]
    {
      assert StaleIn(start, done + {n}, i) <==>
        StaleIn(start, done, i) ||
        (start.execs[i].status == Running && start.nodes[n].status == Running
          && start.nodes[n].lastExecution == Some(i));
    }
    assert a.execs == b.execs;
  }

  lemma RecoverAll(s: State)
    ensures RecoverSome(s, s.nodes.Keys) == Recover(s)
  {
    forall i | 0 <= i < |s.execs|
      ensures StaleIn(s, s.nodes.Keys, i) == Stale(s, i)
    {
    }
    assert RecoverSome(s, s.nodes.Keys).execs == Recover(s).execs;
    assert RecoverSome(s, s.nodes.Keys).nodes == Recover(s).nodes;
  }

  // ---- the application context ---------------------------------------------

  class ApplicationContext {
    const env: Env
    const repo: Repository

    constructor (env: Env, repo: Repository)
      ensures this.env == env && this.repo == repo
    {
      this.env := env;
      this.repo := repo;
    }

    method OpenEngine() returns (engine: GraphEngine)
      modifies repo
      ensures fresh(engine) && engine.env == env && engine.repo == repo && engine.transitions == 0
      ensures repo.Contents() == EngineSpec.OpenEngine(env, old(repo.Contents()))
    {
      if env.graph.entry !in repo.nodeStates {
        repo.UpsertNodeState(env.graph.entry, Ready, None, None);
      }
      engine := new GraphEngine(env, repo);
      var _ := engine.RecoverStaleRunning();
    }

    method AnswerRequest(id: nat, hasMaterial: bool, newFacts: map<string, int>) returns (ok: bool)
      modifies repo
      ensures ok <==> CanAnswer(old(repo.Contents()), id, hasMaterial)
      ensures repo.Contents() == Answer(env, old(repo.Contents()), id, hasMaterial, newFacts)
    {
      if id >= |repo.requests| {
        return false;
      }
      var request := repo.requests[id];
      if request.status != Open || !hasMaterial {
        return false;
      }
      var resolved := repo.ResolveRequest(id, Resolved);
      if resolved {
        repo.facts := newFacts;
      } else {
        return false;
      }
      if request.node in repo.nodeStates {
        repo.UpsertNodeState(request.node, Succeeded, Some(repo.nodeStates[request.node].attempts), None);
      }
      if request.resumeNode != "" && request.resumeNode in env.graph.nodes {
        repo.UpsertNodeState(request.resumeNode, Ready, None, None);
      }
      ok := true;
    }

    method UnblockNode(n: NodeId) returns (ok: bool)
      modifies repo
      ensures ok <==> CanUnblock(old(repo.Contents()), n)
      ensures repo.Contents() == Unblock(old(repo.Contents()), n)
    {
      if n !in repo.nodeStates {
        return false;
      }
      var row := repo.nodeStates[n];
      if row.status != WaitingForApproval && row.status != Failed && row.status != Running && row.status != Ready {
        return false;
      }
      repo.UpsertNodeState(n, Ready, Some(row.attempts), None);
      ok := true;
    }
  }
}
