/**
 * The graph engine as a transition system (src/sassessment/graph/engine.py):
 * selection, one execution, routing, the run loop, recovery and the two operator
 * commands, each as a function on the stored state.
 */
module EngineSpec {
  import opened Prelude
  import opened GraphModel
  import opened EngineState

  // ---- what the engine cannot see ------------------------------------------

  datatype ResultStatus = Success | ResultFailed | ResultWaitingForInput | ResultWaitingForApproval | ResultSkipped

  /** How a handler call ends. `Returned` says whether the result envelope validates. */
  datatype HandlerEnd =
    | Returned(result: ResultStatus, valid: bool)
    | RaisedError
    | RaisedQuota
    | ProcessDied

  /** A handler may open requests and change facts; it never writes node statuses. */
  datatype Reply = Reply(end: HandlerEnd, specs: seq<RequestSpec>, facts: map<string, int>)

  /**
   * `handler` may answer differently on every call: each call sees a longer
   * execution table than the one before.
   */
  datatype Env = Env(
    graph: Graph,
    maxNodeAttempts: int,
    handler: (NodeId, State) -> Reply,
    predicates: (Condition, State) -> bool)

  function EdgeHolds(env: Env, e: Edge, s: State): bool {
    e.condition.None? || env.predicates(e.condition.value, s)
  }

  // ---- selection -----------------------------------------------------------

  const PHASE_ORDER := ["phase0", "phase1", "phase2", "phase3", "phase4", "phase5", "phase6", "phase7", "phase8"]

  /** The first position of `name`, or `missing`, which lies behind the list. */
  function IndexOf(names: seq<string>, name: string, missing: nat): (i: nat)
    requires |names| <= missing
    ensures name !in names ==> i == missing
    ensures name in names ==> i < |names| && names[i] == name && name !in names[..i]
  {
    if names == [] then missing
    else if names[0] == name then 0
    else if name in names[1..] then IndexOf(names[1..], name, missing) + 1
    else missing
  }

  function PhaseRank(phase: string): nat {
    IndexOf(PHASE_ORDER, phase, 99)
  }

  predicate IsSatisfied(s: State, n: NodeId) {
    n in s.nodes && Satisfies(s.nodes[n].status)
  }

  /** `any` needs one satisfied prerequisite, so it is never met without prerequisites. */
  predicate PrerequisitesMet(node: NodeDef, s: State) {
    if node.join == "any" then exists r :: r in node.prerequisites && IsSatisfied(s, r)
    else forall r :: r in node.prerequisites ==> IsSatisfied(s, r)
  }

  predicate Runnable(env: Env, s: State, n: NodeId) {
    && n in env.graph.nodes
    && if n !in s.nodes then s.nodes == map[] && n == env.graph.entry
       else s.nodes[n].status == Ready && PrerequisitesMet(env.graph.nodes[n], s)
  }

  predicate Before(g: Graph, a: NodeId, b: NodeId)
    requires a in g.nodes && b in g.nodes
  {
    var ra, rb := PhaseRank(g.nodes[a].phase), PhaseRank(g.nodes[b].phase);
    ra < rb || (ra == rb && StrLt(a, b))
  }

  /** `n` is runnable and comes before every other runnable node. */
  ghost predicate IsPick(env: Env, s: State, n: NodeId) {
    && Runnable(env, s, n)
    && forall m :: Runnable(env, s, m) && m != n ==> Before(env.graph, n, m)
  }

  ghost function Pick(env: Env, s: State): (r: Option<NodeId>)
    ensures r.Some? ==> IsPick(env, s, r.value)
    ensures r.None? ==> forall n :: !IsPick(env, s, n)
  {
    if n :| IsPick(env, s, n) then Some(n) else None
  }

  // ---- one execution -------------------------------------------------------

  datatype EngineError = UnknownNode | AttemptsExhausted | MissingPrerequisite

  /** `execution` is absent when the node was blocked and nothing ran. */
  datatype RunOutcome = RunOutcome(node: NodeId, execution: Option<nat>, status: Status, fired: seq<Edge>)

  datatype Attempt = Done(outcome: RunOutcome) | Rejected(error: EngineError) | Died

  function Min(a: int, b: int): int { if a < b then a else b }

  function AttemptCap(env: Env, n: NodeId): int
    requires n in env.graph.nodes
  {
    Min(env.graph.nodes[n].maxAttempts, env.maxNodeAttempts)
  }

  function StatusOf(s: State, n: NodeId): Status {
    if n in s.nodes then s.nodes[n].status else Pending
  }

  function Begin(s: State, n: NodeId): State {
    var attempt := Attempts(s, n) + 1;
    Upsert(s.(execs := s.execs + [Execution(n, attempt, Running, false)]), n, Running, Some(attempt), None)
  }

  function HandlerEffects(s: State, n: NodeId, reply: Reply): State {
    CreateRequests(s, n, reply.specs).(facts := reply.facts)
  }

  /** May routing from a success make `m` READY? */
  predicate Eligible(s: State, m: NodeId) {
    m in s.nodes ==> s.nodes[m].status != Succeeded && !Blocked(s.nodes[m].status)
  }

  predicate Activates(env: Env, s: State, n: NodeId, e: Edge) {
    e.source == n && EdgeHolds(env, e, s) && Eligible(s, e.target)
  }

  function Activated(env: Env, s: State, n: NodeId): set<NodeId> {
    set e | e in env.graph.edges && Activates(env, s, n, e) :: e.target
  }

  /** All the nodes in `ready` become READY at once; everything else is untouched. */
  function MakeReady(s: State, ready: set<NodeId>): State {
    s.(nodes := map m | m in s.nodes.Keys + ready ::
      if m in ready then NodeRow(Ready, Attempts(s, m), None) else s.nodes[m])
  }

  function Route(env: Env, s: State, n: NodeId): State {
    MakeReady(s, Activated(env, s, n))
  }

  function Firing(env: Env, s: State, edges: seq<Edge>): seq<Edge> {
    if edges == [] then []
    else (if EdgeHolds(env, edges[0], s) then [edges[0]] else []) + Firing(env, s, edges[1..])
  }

  function AdvancePhase(s: State, node: NodeDef): State {
    if node.phaseGate && node.phase in PHASE_ORDER && PhaseRank(node.phase) + 1 < |PHASE_ORDER|
    then s.(phase := PHASE_ORDER[PhaseRank(node.phase) + 1])
    else s
  }

  function Persisted(result: ResultStatus): Status {
    match result
    case Success => Succeeded
    case ResultFailed => Failed
    case ResultWaitingForInput => WaitingForInput
    case ResultWaitingForApproval => WaitingForApproval
    case ResultSkipped => Skipped
  }

  /** The status an execution leaves behind. */
  function EndStatus(end: HandlerEnd): Status {
    match end
    case ProcessDied => Running
    case RaisedQuota => WaitingForApproval
    case RaisedError => Failed
    case Returned(result, valid) => if result == Success && !valid then Failed else Persisted(result)
  }

  /** A quota hold gives the attempt back. */
  function EndAttempts(end: HandlerEnd, attempts: int): int {
    if end.RaisedQuota? then attempts else attempts + 1
  }

  predicate EndError(end: HandlerEnd) {
    end.RaisedQuota? || end.RaisedError? || end == Returned(Success, false)
  }

  /** Records the end of execution `id`, before any routing. */
  function Record(s: State, n: NodeId, id: nat, attempts: int, end: HandlerEnd): State {
    if end.ProcessDied? then s
    else
      Upsert(Finish(s, id, EndStatus(end), EndError(end)), n, EndStatus(end), Some(EndAttempts(end, attempts)),
        Some(id))
  }

  /** The state after the handler returned and its end was recorded. */
  function Executed(env: Env, s: State, n: NodeId): State {
    var begun := Begin(s, n);
    var reply := env.handler(n, begun);
    Record(HandlerEffects(begun, n, reply), n, |s.execs|, Attempts(s, n), reply.end)
  }

  function ReplyTo(env: Env, s: State, n: NodeId): Reply {
    env.handler(n, Begin(s, n))
  }

  /** What one call of `run_node` leaves behind and reports. */
  datatype Step = Step(state: State, attempt: Attempt)

  /** The call once the handler is allowed to run. */
  function ExecuteNode(env: Env, s: State, n: NodeId): Step
    requires n in env.graph.nodes
  {
    var end := ReplyTo(env, s, n).end;
    var done := Executed(env, s, n);
    if end.ProcessDied? then Step(done, Died)
    else if EndStatus(end) == Succeeded then
      Step(AdvancePhase(Route(env, done, n), env.graph.nodes[n]),
           Done(RunOutcome(n, Some(|s.execs|), Succeeded, Firing(env, done, Outgoing(env.graph, n)))))
    else Step(done, Done(RunOutcome(n, Some(|s.execs|), EndStatus(end), [])))
  }

  function RunNode(env: Env, s: State, n: NodeId): Step {
    if n !in env.graph.nodes then Step(s, Rejected(UnknownNode))
    else if Blocked(StatusOf(s, n)) then Step(s, Done(RunOutcome(n, None, StatusOf(s, n), [])))
    else if Attempts(s, n) >= AttemptCap(env, n) then Step(s, Rejected(AttemptsExhausted))
    else if StatusOf(s, n) == Pending && n != env.graph.entry then Step(s, Rejected(MissingPrerequisite))
    else ExecuteNode(env, s, n)
  }

  /** Does `run_node` call the handler? */
  predicate Executes(env: Env, s: State, n: NodeId) {
    && n in env.graph.nodes
    && !Blocked(StatusOf(s, n))
    && Attempts(s, n) < AttemptCap(env, n)
    && (StatusOf(s, n) == Pending ==> n == env.graph.entry)
  }

  // ---- the run loop --------------------------------------------------------

  /** One iteration of the run loop: nothing when no node is runnable. */
  ghost function Iteration(env: Env, s: State): Option<Step> {
    var pick := Pick(env, s);
    if pick.None? then None else Some(RunNode(env, s, pick.value))
  }

  ghost function Iterations(env: Env): State -> Option<Step> {
    s => Iteration(env, s)
  }

  datatype RunEnd = Drained | StepLimit | CycleLimit | RunRejected(error: EngineError) | RunDied

  datatype Run = Run(state: State, outcomes: seq<RunOutcome>, transitions: int, end: RunEnd)

  function Bound(g: Graph): int {
    g.maxCycles * (if |g.nodes| > 1 then |g.nodes| else 1)
  }

  function LoopExit(bound: int, transitions: int, end: RunEnd): RunEnd {
    if transitions >= bound then CycleLimit else end
  }

  /** At most `steps` iterations; an exception ends the run with the state it left. */
  function RunLoop(next: State -> Option<Step>, bound: int, s: State, steps: nat, transitions: int): Run
    decreases steps
  {
    if steps == 0 then Run(s, [], transitions, LoopExit(bound, transitions, StepLimit))
    else match next(s)
      case None => Run(s, [], transitions, LoopExit(bound, transitions, Drained))
      case Some(step) =>
        match step.attempt
        case Rejected(e) => Run(step.state, [], transitions, RunRejected(e))
        case Died => Run(step.state, [], transitions, RunDied)
        case Done(o) =>
          if transitions + 1 >= bound then Run(step.state, [o], transitions + 1, CycleLimit)
          else
            var rest := RunLoop(next, bound, step.state, steps - 1, transitions + 1);
            rest.(outcomes := [o] + rest.outcomes)
  }

  /** `run(max_steps)` of an engine that has already made `transitions` transitions. */
  ghost function EngineRun(env: Env, s: State, steps: nat, transitions: int): Run {
    RunLoop(Iterations(env), Bound(env.graph), s, steps, transitions)
  }

  // ---- completion ----------------------------------------------------------

  datatype Completion = CompletionRunning | CompletionWaiting | CompletionBlocked | Completed | CompletedWithLimitations

  predicate AnyStatus(env: Env, s: State, mandatoryOnly: bool, st: Status) {
    exists n :: n in env.graph.nodes && (mandatoryOnly ==> !env.graph.nodes[n].optional) && HasStatus(s, n, st)
  }

  predicate OptionalWaiting(env: Env, s: State) {
    exists n :: n in env.graph.nodes && env.graph.nodes[n].optional &&
                (HasStatus(s, n, WaitingForInput) || HasStatus(s, n, WaitingForApproval))
  }

  predicate MandatoryDone(env: Env, s: State) {
    forall n :: n in env.graph.nodes && !env.graph.nodes[n].optional ==> IsSatisfied(s, n)
  }

  predicate OpenRequests(s: State, blockingOnly: bool) {
    exists i :: 0 <= i < |s.requests| && s.requests[i].status == Open &&
                (blockingOnly ==> s.requests[i].priority == "BLOCKING")
  }

  /** `runnable` says whether selection would find a node. */
  function Classify(env: Env, s: State, runnable: bool): Completion {
    if AnyStatus(env, s, false, Running) then CompletionRunning
    else if OpenRequests(s, true) then CompletionWaiting
    else if AnyStatus(env, s, true, WaitingForInput) || AnyStatus(env, s, true, WaitingForApproval)
      then CompletionWaiting
    else if AnyStatus(env, s, true, Failed) then CompletionBlocked
    else if !MandatoryDone(env, s) then (if runnable then CompletionRunning else CompletionBlocked)
    else if OptionalWaiting(env, s) || OpenRequests(s, false) then CompletedWithLimitations
    else Completed
  }

  ghost function CompletionStatus(env: Env, s: State): Completion {
    Classify(env, s, Pick(env, s).Some?)
  }

  /** Do the requests that block the assessment include number `i`? */
  predicate BlockingAt(requests: seq<Request>, i: int) {
    0 <= i < |requests| && requests[i].status == Open && requests[i].priority == "BLOCKING"
  }

  ghost function BlockingRequests(requests: seq<Request>): set<int> {
    set i | 0 <= i < |requests| && BlockingAt(requests, i)
  }

  predicate IsWaiting(s: State, n: NodeId) {
    HasStatus(s, n, WaitingForInput) || HasStatus(s, n, WaitingForApproval)
  }

  datatype CompletionReport = CompletionReport(
    status: Completion, openRequests: seq<nat>, blockingCount: nat,
    waitingNodes: seq<NodeId>, pendingNodes: seq<NodeId>, failedNodes: seq<NodeId>)

  // ---- recovery, bootstrap and operator commands ---------------------------

  /** Is execution `i` the recorded last execution of a RUNNING node? */
  predicate Stale(s: State, i: nat) {
    i < |s.execs| && s.execs[i].status == Running &&
    exists n :: n in s.nodes && s.nodes[n].status == Running && s.nodes[n].lastExecution == Some(i)
  }

  function Recover(s: State): State {
    s.(nodes := map n | n in s.nodes ::
         if s.nodes[n].status == Running then NodeRow(Ready, s.nodes[n].attempts, None) else s.nodes[n],
       execs := seq(|s.execs|, i requires 0 <= i < |s.execs| =>
         if Stale(s, i) then s.execs[i].(status := Cancelled, error := false) else s.execs[i]))
  }

  /** What opening an engine does: entry bootstrap, then recovery. */
  function OpenEngine(env: Env, s: State): State {
    Recover(if env.graph.entry in s.nodes then s else Upsert(s, env.graph.entry, Ready, None, None))
  }

  predicate CanAnswer(s: State, id: nat, hasMaterial: bool) {
    id < |s.requests| && s.requests[id].status == Open && hasMaterial
  }

  /** Resolve, mark the requesting node SUCCEEDED without routing, make the resume node READY. */
  function Answer(env: Env, s: State, id: nat, hasMaterial: bool, facts: map<string, int>): State {
    if !CanAnswer(s, id, hasMaterial) then s
    else
      var r := s.requests[id];
      var resolved := ResolveRequest(s, id, Resolved).(facts := facts);
      var marked := if r.node in resolved.nodes
                    then Upsert(resolved, r.node, Succeeded, Some(resolved.nodes[r.node].attempts), None)
                    else resolved;
      if r.resumeNode != "" && r.resumeNode in env.graph.nodes
      then Upsert(marked, r.resumeNode, Ready, None, None)
      else marked
  }

  predicate CanUnblock(s: State, n: NodeId) {
    n in s.nodes && (s.nodes[n].status == WaitingForApproval || s.nodes[n].status == Failed ||
                     s.nodes[n].status == Running || s.nodes[n].status == Ready)
  }

  function Unblock(s: State, n: NodeId): State {
    if CanUnblock(s, n) then Upsert(s, n, Ready, Some(s.nodes[n].attempts), None) else s
  }

  // ---- histories -----------------------------------------------------------

  /** `PickStep` is one iteration of the run loop. */
  datatype Event =
    | EngineOpened
    | PickStep
    | RunOne(node: NodeId)
    | AnswerEvent(id: nat, hasMaterial: bool, newFacts: map<string, int>)
    | UnblockEvent(held: NodeId)
    | FactsChanged(facts: map<string, int>)

  ghost function Apply(env: Env, s: State, ev: Event): State {
    match ev
    case EngineOpened => OpenEngine(env, s)
    case PickStep => (match Iteration(env, s) case Some(step) => step.state case None => s)
    case RunOne(n) => RunNode(env, s, n).state
    case AnswerEvent(id, m, f) => Answer(env, s, id, m, f)
    case UnblockEvent(n) => Unblock(s, n)
    case FactsChanged(f) => s.(facts := f)
  }

  ghost function Effect(env: Env): (State, Event) -> State {
    (s, ev) => Apply(env, s, ev)
  }

  function Fold(apply: (State, Event) -> State, s: State, events: seq<Event>): State
    decreases |events|
  {
    if events == [] then s else Fold(apply, apply(s, events[0]), events[1..])
  }

  /** The state after `events`, oldest first. */
  ghost function History(env: Env, s: State, events: seq<Event>): State {
    Fold(Effect(env), s, events)
  }

  lemma {:induction false} FoldPush(apply: (State, Event) -> State, s: State, events: seq<Event>, ev: Event)
    ensures Fold(apply, s, events + [ev]) == apply(Fold(apply, s, events), ev)
    decreases |events|
  {
    if events == [] {
      assert [] + [ev] == [ev] && [ev][1..] == [];
    } else {
      assert (events + [ev])[1..] == events[1..] + [ev];
      FoldPush(apply, apply(s, events[0]), events[1..], ev);
    }
  }

  /** One more event is applied to the state the earlier ones left. */
  lemma HistoryPush(env: Env, s: State, events: seq<Event>, ev: Event)
    ensures History(env, s, events + [ev]) == Apply(env, History(env, s, events), ev)
  {
    FoldPush(Effect(env), s, events, ev);
  }

  function Picks(k: nat): seq<Event> {
    if k == 0 then [] else [PickStep] + Picks(k - 1)
  }

  lemma {:induction false} LoopIsFold(
    next: State -> Option<Step>, apply: (State, Event) -> State, bound: int, s: State, steps: nat, transitions: int)
    returns (k: nat)
    requires forall t :: apply(t, PickStep) == (match next(t) case Some(step) => step.state case None => t)
    ensures k <= steps
    ensures RunLoop(next, bound, s, steps, transitions).state == Fold(apply, s, Picks(k))
    decreases steps
  {
    k := 0;
    if steps > 0 && next(s).Some? {
      var step := next(s).value;
      if step.attempt.Done? && transitions + 1 < bound {
        k := LoopIsFold(next, apply, bound, step.state, steps - 1, transitions + 1);
      }
      k := k + 1;
      assert Picks(k)[0] == PickStep && Picks(k)[1..] == Picks(k - 1);
      assert apply(s, PickStep) == step.state;
    }
  }

  /** A run is a history of picks, so what every event keeps, `run` keeps. */
  lemma RunIsHistory(env: Env, s: State, steps: nat, transitions: int) returns (k: nat)
    ensures k <= steps
    ensures EngineRun(env, s, steps, transitions).state == History(env, s, Picks(k))
  {
    k := LoopIsFold(Iterations(env), Effect(env), Bound(env.graph), s, steps, transitions);
  }
}
