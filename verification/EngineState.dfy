/**
 * What the repository stores for one assessment (src/sassessment/state/repository.py)
 * and the effect of each of its writes. Execution and request ids are positions in
 * their table, so every created row gets a fresh id.
 */
module EngineState {
  import opened Prelude
  import opened GraphModel

  datatype Status =
    | Pending | Ready | Running | WaitingForInput | WaitingForApproval
    | Succeeded | Failed | Cancelled | Superseded | Skipped

  /** Statuses that neither `run_node` nor routing touches. */
  predicate Blocked(s: Status) {
    s == WaitingForInput || s == WaitingForApproval || s == Cancelled || s == Skipped
  }

  /** Statuses that satisfy a prerequisite. */
  predicate Satisfies(s: Status) {
    s == Succeeded || s == Skipped
  }

  datatype NodeRow = NodeRow(status: Status, attempts: int, lastExecution: Option<nat>)

  datatype Execution = Execution(node: NodeId, attempt: int, status: Status, error: bool)

  datatype RequestStatus = Open | Answered | Resolved | RequestCancelled | Expired

  datatype Request = Request(
    node: NodeId, missingInfo: string, priority: string, resumeNode: NodeId, status: RequestStatus)

  /** `facts` holds everything else an edge condition may read: batch and evidence counts, flags. */
  datatype State = State(
    nodes: map<NodeId, NodeRow>,
    execs: seq<Execution>,
    requests: seq<Request>,
    phase: string,
    facts: map<string, int>)

  /** The state of a newly created assessment. */
  function Initial(facts: map<string, int>): State {
    State(map[], [], [], "phase0", facts)
  }

  predicate HasStatus(s: State, n: NodeId, st: Status) {
    n in s.nodes && s.nodes[n].status == st
  }

  function Attempts(s: State, n: NodeId): int {
    if n in s.nodes then s.nodes[n].attempts else 0
  }

  // ---- writes --------------------------------------------------------------

  /** An omitted attempt count is kept; an omitted last execution is cleared. */
  function Upsert(s: State, n: NodeId, status: Status, attempts: Option<int>, lastExecution: Option<nat>): State {
    s.(nodes := s.nodes[n := NodeRow(status, attempts.GetOr(Attempts(s, n)), lastExecution)])
  }

  function Finish(s: State, id: nat, status: Status, error: bool): State {
    if id < |s.execs| then s.(execs := s.execs[id := s.execs[id].(status := status, error := error)]) else s
  }

  function OpenRequestFor(s: State, n: NodeId, missing: string): Option<nat> {
    FindOpen(s.requests, n, missing, 0)
  }

  predicate OpenAt(requests: seq<Request>, i: int, n: NodeId, missing: string) {
    0 <= i < |requests| && requests[i].status == Open && requests[i].node == n && requests[i].missingInfo == missing
  }

  function FindOpen(requests: seq<Request>, n: NodeId, missing: string, from: nat): (r: Option<nat>)
    ensures r.Some? ==> from <= r.value && OpenAt(requests, r.value, n, missing)
    ensures r.None? ==> forall i :: from <= i ==> !OpenAt(requests, i, n, missing)
    ensures r.Some? ==> forall i :: from <= i < r.value ==> !OpenAt(requests, i, n, missing)
    decreases |requests| - from
  {
    if from >= |requests| then None
    else if OpenAt(requests, from, n, missing) then Some(from)
    else FindOpen(requests, n, missing, from + 1)
  }

  /** Idempotent while a request for the same missing information is open. */
  function CreateRequest(s: State, r: Request): State {
    if OpenRequestFor(s, r.node, r.missingInfo).Some? then s else s.(requests := s.requests + [r])
  }

  function ResolveRequest(s: State, id: nat, status: RequestStatus): State {
    if id < |s.requests| && s.requests[id].status == Open
    then s.(requests := s.requests[id := s.requests[id].(status := status)])
    else s
  }

  // ---- human input ---------------------------------------------------------

  datatype RequestSpec = RequestSpec(missingInfo: string, priority: string, resumeNode: NodeId)

  /** An empty resume node means the requesting node itself. */
  function RequestOf(n: NodeId, spec: RequestSpec): Request {
    Request(n, spec.missingInfo, spec.priority, if spec.resumeNode == "" then n else spec.resumeNode, Open)
  }

  function CreateRequests(s: State, n: NodeId, specs: seq<RequestSpec>): State
    decreases |specs|
  {
    if specs == [] then s
    else CreateRequests(CreateRequest(s, RequestOf(n, specs[0])), n, specs[1..])
  }
}
