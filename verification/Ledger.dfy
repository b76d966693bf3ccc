/**
 * Whole-history accounting: what one execution changes, the attempt ledger, what
 * recovery does and does not repair, and the request protocol.
 */
module Ledger {
  import opened Prelude
  import opened GraphModel
  import opened EngineState
  import opened EngineSpec

  // ---- frame of one execution ----------------------------------------------

  lemma {:induction false} RequestsLeaveRows(s: State, n: NodeId, specs: seq<RequestSpec>)
    ensures CreateRequests(s, n, specs).nodes == s.nodes
    ensures CreateRequests(s, n, specs).execs == s.execs
    decreases |specs|
  {
    if specs != [] {
      RequestsLeaveRows(CreateRequest(s, RequestOf(n, specs[0])), n, specs[1..]);
    }
  }

  function EndRow(env: Env, s: State, n: NodeId): NodeRow {
    var end := ReplyTo(env, s, n).end;
    NodeRow(EndStatus(end), EndAttempts(end, Attempts(s, n)), if end.ProcessDied? then None else Some(|s.execs|))
  }

  function EndExecution(env: Env, s: State, n: NodeId): Execution {
    var end := ReplyTo(env, s, n).end;
    Execution(n, Attempts(s, n) + 1, EndStatus(end), EndError(end))
  }

  /** An execution writes its own node row and one new execution row. */
  lemma ExecutedRows(env: Env, s: State, n: NodeId)
    ensures Executed(env, s, n).nodes == s.nodes[n := EndRow(env, s, n)]
    ensures Executed(env, s, n).execs == s.execs + [EndExecution(env, s, n)]
    ensures Executed(env, s, n).requests == CreateRequests(Begin(s, n), n, ReplyTo(env, s, n).specs).requests
  {
    RequestsLeaveRows(Begin(s, n), n, ReplyTo(env, s, n).specs);
  }

  predicate Succeeds(env: Env, s: State, n: NodeId) {
    Executes(env, s, n) && EndStatus(ReplyTo(env, s, n).end) == Succeeded
  }

  /** Does a success of `n` in `s` make `m` READY? Conditions see the state in which `n` has succeeded. */
  ghost predicate Promotes(env: Env, s: State, n: NodeId, m: NodeId) {
    Succeeds(env, s, n) && m != n && m in Activated(env, Executed(env, s, n), n)
  }

  /**
   * `run_node` changes its own row; a success also makes its eligible direct
   * successors READY, keeping their attempts; no other row changes.
   */
  lemma RunNodeFrame(env: Env, s: State, n: NodeId, m: NodeId)
    ensures !Executes(env, s, n) ==> RunNode(env, s, n).state == s
    ensures Executes(env, s, n) ==> RunNode(env, s, n).state.execs == s.execs + [EndExecution(env, s, n)]
    ensures Executes(env, s, n) ==> HasRow(RunNode(env, s, n).state, n, EndRow(env, s, n))
    ensures m != n && Promotes(env, s, n, m) ==>
      HasRow(RunNode(env, s, n).state, m, NodeRow(Ready, Attempts(s, m), None))
    ensures m != n && !Promotes(env, s, n, m) ==> SameRow(s, RunNode(env, s, n).state, m)
    ensures Promotes(env, s, n, m) ==> HasEdge(env.graph, n, m)
    ensures Promotes(env, s, n, m) && m in s.nodes ==> s.nodes[m].status != Succeeded && !Blocked(s.nodes[m].status)
  {
    if Executes(env, s, n) {
      ExecutedRows(env, s, n);
    }
  }

  predicate HasRow(s: State, n: NodeId, row: NodeRow) {
    n in s.nodes && s.nodes[n] == row
  }

  predicate SameRow(s: State, t: State, n: NodeId) {
    (n in s.nodes <==> n in t.nodes) && (n in s.nodes ==> s.nodes[n] == t.nodes[n])
  }

  predicate SameRoute(a: Edge, b: Edge) {
    a.source == b.source && a.target == b.target && a.condition == b.condition
  }

  /** Every edge of `a` occurs in `b`, at whatever place and priority. */
  ghost predicate RoutesWithin(a: seq<Edge>, b: seq<Edge>) {
    forall i :: 0 <= i < |a| ==> exists k :: 0 <= k < |b| && SameRoute(a[i], b[k])
  }

  lemma ActivatedWithin(a: Env, b: Env, s: State, n: NodeId)
    requires RoutesWithin(a.graph.edges, b.graph.edges) && a.predicates == b.predicates
    ensures Activated(a, s, n) <= Activated(b, s, n)
  {
    forall m | m in Activated(a, s, n)
      ensures m in Activated(b, s, n)
    {
      var e :| e in a.graph.edges && Activates(a, s, n, e) && e.target == m;
      var i :| 0 <= i < |a.graph.edges| && a.graph.edges[i] == e;
      var k :| 0 <= k < |b.graph.edges| && SameRoute(a.graph.edges[i], b.graph.edges[k]);
      assert Activates(b, s, n, b.graph.edges[k]);
    }
  }

  /** Only the edge set matters to routing: neither order nor priority changes its effect. */
  lemma RouteIgnoresOrder(a: Env, b: Env, s: State, n: NodeId)
    requires a.predicates == b.predicates
    requires RoutesWithin(a.graph.edges, b.graph.edges) && RoutesWithin(b.graph.edges, a.graph.edges)
    ensures Route(a, s, n) == Route(b, s, n)
  {
    assert Activated(a, s, n) == Activated(b, s, n) by {
      ActivatedWithin(a, b, s, n);
      ActivatedWithin(b, a, s, n);
    }
  }

  // ---- the attempt ledger --------------------------------------------------

  function ExecutionsOf(execs: seq<Execution>, n: NodeId): nat {
    if execs == [] then 0
    else ExecutionsOf(execs[..|execs| - 1], n) + (if execs[|execs| - 1].node == n then 1 else 0)
  }

  /** A quota hold is an execution held for approval with an error recorded. */
  predicate IsQuotaHold(e: Execution) {
    e.status == WaitingForApproval && e.error
  }

  function QuotaHolds(execs: seq<Execution>, n: NodeId): nat {
    if execs == [] then 0
    else
      var last := execs[|execs| - 1];
      QuotaHolds(execs[..|execs| - 1], n) + (if last.node == n && IsQuotaHold(last) then 1 else 0)
  }

  lemma CountsOneMore(execs: seq<Execution>, e: Execution, n: NodeId)
    ensures ExecutionsOf(execs + [e], n) == ExecutionsOf(execs, n) + (if e.node == n then 1 else 0)
    ensures QuotaHolds(execs + [e], n) == QuotaHolds(execs, n) + (if e.node == n && IsQuotaHold(e) then 1 else 0)
  {
    assert (execs + [e])[..|execs|] == execs;
  }

  /** max(0, min(node cap, global cap)); nodes outside the graph never run. */
  function Allowance(env: Env, n: NodeId): int {
    if n in env.graph.nodes && AttemptCap(env, n) > 0 then AttemptCap(env, n) else 0
  }

  predicate InBalance(env: Env, s: State, n: NodeId) {
    && Attempts(s, n) + QuotaHolds(s.execs, n) == ExecutionsOf(s.execs, n)
    && 0 <= Attempts(s, n) <= Allowance(env, n)
    && (HasStatus(s, n, Running) ==> s.nodes[n].lastExecution == None)
  }

  ghost predicate LedgerHolds(env: Env, s: State) {
    forall n :: InBalance(env, s, n)
  }

  lemma RunNodeKeepsBalance(env: Env, s: State, n: NodeId, m: NodeId)
    requires InBalance(env, s, m)
    ensures InBalance(env, RunNode(env, s, n).state, m)
  {
    RunNodeFrame(env, s, n, m);
    if Executes(env, s, n) {
      CountsOneMore(s.execs, EndExecution(env, s, n), m);
    }
  }

  lemma NothingStale(env: Env, s: State)
    requires LedgerHolds(env, s)
    ensures Recover(s).execs == s.execs
  {
    forall i | 0 <= i < |s.execs|
      ensures !Stale(s, i)
    {
      forall n | n in s.nodes
        ensures !(s.nodes[n].status == Running && s.nodes[n].lastExecution == Some(i))
      {
        assert InBalance(env, s, n);
      }
    }
  }

  lemma OpenKeepsLedger(env: Env, s: State)
    requires LedgerHolds(env, s)
    ensures LedgerHolds(env, OpenEngine(env, s))
    ensures OpenEngine(env, s).execs == s.execs
  {
    var boot := if env.graph.entry in s.nodes then s else Upsert(s, env.graph.entry, Ready, None, None);
    forall n
      ensures InBalance(env, boot, n)
    {
      assert InBalance(env, s, n);
    }
    NothingStale(env, boot);
    forall n
      ensures InBalance(env, OpenEngine(env, s), n)
    {
      assert InBalance(env, boot, n);
    }
  }

  lemma OperatorKeepsLedger(env: Env, s: State, ev: Event, n: NodeId)
    requires !ev.EngineOpened? && !ev.PickStep? && !ev.RunOne?
    requires InBalance(env, s, n)
    ensures InBalance(env, Apply(env, s, ev), n)
  {
  }

  lemma EventKeepsLedger(env: Env, s: State, ev: Event)
    requires LedgerHolds(env, s)
    ensures LedgerHolds(env, Apply(env, s, ev))
  {
    match ev {
      case EngineOpened => OpenKeepsLedger(env, s);
      case PickStep =>
        if Pick(env, s).Some? {
          forall n { RunNodeKeepsBalance(env, s, Pick(env, s).value, n); }
        }
      case RunOne(m) =>
        forall n { RunNodeKeepsBalance(env, s, m, n); }
      case _ =>
        forall n { OperatorKeepsLedger(env, s, ev, n); }
    }
  }

  lemma {:induction false} LedgerFrom(env: Env, s: State, events: seq<Event>)
    requires LedgerHolds(env, s)
    ensures LedgerHolds(env, History(env, s, events))
    decreases |events|
  {
    if events != [] {
      EventKeepsLedger(env, s, events[0]);
      LedgerFrom(env, Apply(env, s, events[0]), events[1..]);
    }
  }

  /**
   * Over every history of runs, direct node runs, crashes, recoveries, answers and
   * unblocks: attempts plus quota holds is the number of executions, attempts stay
   * within the caps, and recovery never cancels an execution.
   */
  lemma AttemptLedger(env: Env, facts: map<string, int>, events: seq<Event>, n: NodeId)
    ensures var s := History(env, Initial(facts), events);
      && Attempts(s, n) + QuotaHolds(s.execs, n) == ExecutionsOf(s.execs, n)
      && 0 <= Attempts(s, n) <= Allowance(env, n)
      && Recover(s).execs == s.execs
  {
    var s := History(env, Initial(facts), events);
    LedgerFrom(env, Initial(facts), events);
    assert InBalance(env, s, n);
    NothingStale(env, s);
  }

  // ---- recovery after a crash ----------------------------------------------

  /**
   * A process death inside the handler, then a restart: the node is READY again,
   * the attempt stays consumed, and the interrupted execution stays RUNNING.
   */
  lemma CrashConsumesAttempt(env: Env, facts: map<string, int>, events: seq<Event>, n: NodeId)
    requires var s := History(env, Initial(facts), events);
      Executes(env, s, n) && ReplyTo(env, s, n).end == ProcessDied
    ensures var s := History(env, Initial(facts), events);
      var t := History(env, s, [RunOne(n), EngineOpened]);
      && HasRow(t, n, NodeRow(Ready, Attempts(s, n) + 1, None))
      && t.execs == s.execs + [Execution(n, Attempts(s, n) + 1, Running, false)]
  {
    var s := History(env, Initial(facts), events);
    LedgerFrom(env, Initial(facts), events);
    var dead := RunNode(env, s, n).state;
    assert History(env, s, [RunOne(n), EngineOpened]) == OpenEngine(env, dead) by {
      assert [RunOne(n), EngineOpened][1..] == [EngineOpened];
      assert [EngineOpened][1..] == [];
      assert Fold(Effect(env), dead, [EngineOpened]) == OpenEngine(env, dead);
    }
    EventKeepsLedger(env, s, RunOne(n));
    RunNodeFrame(env, s, n, n);
    OpenKeepsLedger(env, dead);
  }

  // ---- the request protocol ------------------------------------------------

  ghost predicate UniqueOpen(requests: seq<Request>) {
    forall i, j, n, info :: OpenAt(requests, i, n, info) && OpenAt(requests, j, n, info) ==> i == j
  }

  /** Rows are only added, and an old row changes only from OPEN to RESOLVED. */
  ghost predicate Progressed(before: seq<Request>, after: seq<Request>) {
    && |before| <= |after|
    && forall i :: 0 <= i < |before| ==>
         after[i] == before[i] || (before[i].status == Open && after[i] == before[i].(status := Resolved))
  }

  lemma ProgressedTransitive(a: seq<Request>, b: seq<Request>, c: seq<Request>)
    requires Progressed(a, b) && Progressed(b, c)
    ensures Progressed(a, c)
  {
  }

  lemma {:induction false} CreateKeepsProtocol(s: State, n: NodeId, specs: seq<RequestSpec>)
    requires UniqueOpen(s.requests)
    ensures UniqueOpen(CreateRequests(s, n, specs).requests)
    ensures Progressed(s.requests, CreateRequests(s, n, specs).requests)
    decreases |specs|
  {
    if specs != [] {
      var r := RequestOf(n, specs[0]);
      var one := CreateRequest(s, r);
      if OpenRequestFor(s, n, r.missingInfo).None? {
        forall i, m, info | OpenAt(one.requests, i, m, info)
          ensures i < |s.requests| ==> OpenAt(s.requests, i, m, info)
          ensures i == |s.requests| ==> m == n && info == r.missingInfo
        {
        }
      }
      CreateKeepsProtocol(one, n, specs[1..]);
      ProgressedTransitive(s.requests, one.requests, CreateRequests(s, n, specs).requests);
    }
  }

  lemma RunNodeKeepsProtocol(env: Env, s: State, n: NodeId)
    requires UniqueOpen(s.requests)
    ensures UniqueOpen(RunNode(env, s, n).state.requests)
    ensures Progressed(s.requests, RunNode(env, s, n).state.requests)
  {
    if Executes(env, s, n) {
      ExecutedRows(env, s, n);
      CreateKeepsProtocol(Begin(s, n), n, ReplyTo(env, s, n).specs);
    }
  }

  lemma AnswerKeepsProtocol(env: Env, s: State, id: nat, m: bool, f: map<string, int>)
    requires UniqueOpen(s.requests)
    ensures UniqueOpen(Answer(env, s, id, m, f).requests)
    ensures Progressed(s.requests, Answer(env, s, id, m, f).requests)
  {
    var after := Answer(env, s, id, m, f).requests;
    forall i, n, info | OpenAt(after, i, n, info)
      ensures OpenAt(s.requests, i, n, info)
    {
    }
  }

  lemma EventKeepsProtocol(env: Env, s: State, ev: Event)
    requires UniqueOpen(s.requests)
    ensures UniqueOpen(Apply(env, s, ev).requests)
    ensures Progressed(s.requests, Apply(env, s, ev).requests)
  {
    match ev {
      case PickStep =>
        if Pick(env, s).Some? {
          RunNodeKeepsProtocol(env, s, Pick(env, s).value);
        }
      case RunOne(n) => RunNodeKeepsProtocol(env, s, n);
      case AnswerEvent(id, m, f) => AnswerKeepsProtocol(env, s, id, m, f);
      case _ =>
    }
  }

  lemma {:induction false} ProtocolFrom(env: Env, s: State, events: seq<Event>)
    requires UniqueOpen(s.requests)
    ensures UniqueOpen(History(env, s, events).requests)
    ensures Progressed(s.requests, History(env, s, events).requests)
    decreases |events|
  {
    if events != [] {
      var next := Apply(env, s, events[0]);
      EventKeepsProtocol(env, s, events[0]);
      ProtocolFrom(env, next, events[1..]);
      ProgressedTransitive(s.requests, next.requests, History(env, s, events).requests);
    }
  }

  /** In every reachable state one piece of information is asked for at most once per node. */
  lemma RequestProtocol(env: Env, facts: map<string, int>, before: seq<Event>, after: seq<Event>)
    ensures var s := History(env, Initial(facts), before);
      UniqueOpen(s.requests) && Progressed(s.requests, History(env, s, after).requests)
  {
    ProtocolFrom(env, Initial(facts), before);
    ProtocolFrom(env, History(env, Initial(facts), before), after);
  }

  /** An answered request is resolved once: it never reopens and cannot be answered again. */
  lemma ResolvedOnce(
    env: Env, facts: map<string, int>, before: seq<Event>, id: nat,
    newFacts: map<string, int>, after: seq<Event>, material: bool)
    requires CanAnswer(History(env, Initial(facts), before), id, true)
    ensures var answered := Answer(env, History(env, Initial(facts), before), id, true, newFacts);
      var later := History(env, answered, after);
      && |later.requests| > id
      && later.requests[id] == History(env, Initial(facts), before).requests[id].(status := Resolved)
      && !CanAnswer(later, id, material)
  {
    var s := History(env, Initial(facts), before);
    ProtocolFrom(env, Initial(facts), before);
    AnswerKeepsProtocol(env, s, id, true, newFacts);
    ProtocolFrom(env, Answer(env, s, id, true, newFacts), after);
  }
}
