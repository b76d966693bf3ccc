/**
 * Safety over whole runs: prerequisites stay met once used, nodes that wait for
 * each other never run, and every activated node is justified by a path of successes.
 */
module Safety {
  import opened Prelude
  import opened GraphModel
  import opened EngineState
  import opened EngineSpec
  import opened Ledger

  /** Opening the engine, running it and outside facts; no operator writes. */
  predicate EngineOnly(ev: Event) {
    ev.EngineOpened? || ev.PickStep? || ev.FactsChanged?
  }

  predicate AllEngineOnly(events: seq<Event>) {
    forall i :: 0 <= i < |events| ==> EngineOnly(events[i])
  }

  type Guard = (State, Event) -> bool

  /** Every event of the history is admitted in the state it meets. */
  ghost predicate Throughout(env: Env, guard: Guard, s: State, events: seq<Event>)
    decreases |events|
  {
    events == [] || (guard(s, events[0]) && Throughout(env, guard, Apply(env, s, events[0]), events[1..]))
  }

  /** A guard that admits the engine admits every history in which only the engine acts. */
  lemma {:induction false} EngineOnlyThroughout(env: Env, guard: Guard, s: State, events: seq<Event>)
    requires AllEngineOnly(events) && forall t, ev :: EngineOnly(ev) ==> guard(t, ev)
    ensures Throughout(env, guard, s, events)
    decreases |events|
  {
    if events != [] {
      assert EngineOnly(events[0]);
      EngineOnlyThroughout(env, guard, Apply(env, s, events[0]), events[1..]);
    }
  }

  /** Does answering the request make `n` READY as its resume node? */
  predicate ResumesAt(env: Env, s: State, id: nat, hasMaterial: bool, n: NodeId) {
    CanAnswer(s, id, hasMaterial) && s.requests[id].resumeNode == n && n != "" && n in env.graph.nodes
  }

  predicate Ran(s: State, n: NodeId) {
    exists i :: 0 <= i < |s.execs| && s.execs[i].node == n
  }

  predicate Settled(st: Status) {
    st == Succeeded || Blocked(st)
  }

  lemma PickIsRunnable(env: Env, s: State)
    requires Pick(env, s).Some?
    ensures Runnable(env, s, Pick(env, s).value)
  {
  }

  /** A pick starts the entry of an empty assessment or a READY node whose join is satisfied. */
  lemma PickFrame(env: Env, s: State, m: NodeId)
    requires m in s.nodes
    ensures m in Apply(env, s, PickStep).nodes
    ensures Settled(s.nodes[m].status) ==> Apply(env, s, PickStep).nodes[m] == s.nodes[m]
  {
    if Pick(env, s).Some? {
      PickIsRunnable(env, s);
      RunNodeFrame(env, s, Pick(env, s).value, m);
    }
  }

  lemma PrerequisitesStay(node: NodeDef, s: State, t: State)
    requires forall r :: IsSatisfied(s, r) ==> IsSatisfied(t, r)
    requires PrerequisitesMet(node, s)
    ensures PrerequisitesMet(node, t)
  {
  }

  /** Which nodes have an execution after one more event. */
  lemma RanAfter(env: Env, s: State, ev: Event, n: NodeId)
    requires Ran(Apply(env, s, ev), n)
    ensures Ran(s, n) || (ev.PickStep? && Pick(env, s) == Some(n) && Executes(env, s, n)) || ev == RunOne(n)
  {
    var t := Apply(env, s, ev);
    var i :| 0 <= i < |t.execs| && t.execs[i].node == n;
    match ev {
      case PickStep =>
        if Pick(env, s).Some? {
          RunNodeFrame(env, s, Pick(env, s).value, n);
        }
      case RunOne(m) => RunNodeFrame(env, s, m, n);
      case _ => assert s.execs[i].node == n;
    }
  }

  ghost predicate PrerequisitesHeld(env: Env, s: State, n: NodeId) {
    Ran(s, n) && n != env.graph.entry ==> n in env.graph.nodes && PrerequisitesMet(env.graph.nodes[n], s)
  }

  /**
   * A satisfied node is neither run directly nor resumed, and a direct run starts no node
   * whose join is not satisfied. Everything else is admitted.
   */
  ghost predicate KeepsSatisfied(env: Env, s: State, ev: Event) {
    match ev
    case RunOne(m) =>
      Executes(env, s, m) ==>
        !IsSatisfied(s, m) && (m == env.graph.entry || PrerequisitesMet(env.graph.nodes[m], s))
    case AnswerEvent(id, hasMaterial, _) => forall m :: ResumesAt(env, s, id, hasMaterial, m) ==> !IsSatisfied(s, m)
    case _ => true
  }

  ghost function SatisfiedGuard(env: Env): Guard {
    (s, ev) => KeepsSatisfied(env, s, ev)
  }

  lemma SatisfiedStays(env: Env, s: State, ev: Event, m: NodeId)
    requires KeepsSatisfied(env, s, ev) && IsSatisfied(s, m)
    ensures IsSatisfied(Apply(env, s, ev), m)
  {
    match ev {
      case PickStep => PickFrame(env, s, m);
      case RunOne(n) => RunNodeFrame(env, s, n, m);
      case AnswerEvent(id, hasMaterial, _) => assert !ResumesAt(env, s, id, hasMaterial, m);
      case _ =>
    }
  }

  lemma EventKeepsPrerequisites(env: Env, s: State, ev: Event, n: NodeId)
    requires KeepsSatisfied(env, s, ev) && PrerequisitesHeld(env, s, n)
    ensures PrerequisitesHeld(env, Apply(env, s, ev), n)
  {
    var t := Apply(env, s, ev);
    if Ran(t, n) && n != env.graph.entry {
      RanAfter(env, s, ev, n);
      forall r | IsSatisfied(s, r)
        ensures IsSatisfied(t, r)
      {
        SatisfiedStays(env, s, ev, r);
      }
      if !Ran(s, n) {
        StartedMet(env, s, ev, n);
      }
      PrerequisitesStay(env.graph.nodes[n], s, t);
    }
  }

  /** A non-entry node that runs for the first time has its join satisfied. */
  lemma StartedMet(env: Env, s: State, ev: Event, n: NodeId)
    requires KeepsSatisfied(env, s, ev) && !Ran(s, n) && Ran(Apply(env, s, ev), n) && n != env.graph.entry
    ensures n in env.graph.nodes && PrerequisitesMet(env.graph.nodes[n], s)
  {
    RanAfter(env, s, ev, n);
    if ev.PickStep? {
      PickIsRunnable(env, s);
    } else {
      RunNodeFrame(env, s, n, n);
    }
  }

  lemma {:induction false} PrerequisitesFrom(env: Env, s: State, events: seq<Event>, n: NodeId)
    requires Throughout(env, SatisfiedGuard(env), s, events) && PrerequisitesHeld(env, s, n)
    ensures PrerequisitesHeld(env, History(env, s, events), n)
    decreases |events|
  {
    if events != [] {
      EventKeepsPrerequisites(env, s, events[0], n);
      PrerequisitesFrom(env, Apply(env, s, events[0]), events[1..], n);
    }
  }

  /**
   * Every non-entry node that ever ran has its join satisfied, then and ever after, as
   * long as no answer resumes a satisfied node and no direct run re-runs one or starts a
   * node early.
   */
  lemma PrerequisiteSafety(env: Env, facts: map<string, int>, events: seq<Event>, n: NodeId)
    requires Throughout(env, SatisfiedGuard(env), Initial(facts), events)
    requires Ran(History(env, Initial(facts), events), n) && n != env.graph.entry
    ensures n in env.graph.nodes && PrerequisitesMet(env.graph.nodes[n], History(env, Initial(facts), events))
  {
    PrerequisitesFrom(env, Initial(facts), events, n);
  }

  /**
   * In any state, whatever operators did before: when an iteration of `run` executes a
   * node, that node is the entry of an empty assessment or its join is satisfied.
   */
  lemma StartedWithJoinMet(env: Env, s: State)
    requires |Apply(env, s, PickStep).execs| > |s.execs|
    ensures var n := Apply(env, s, PickStep).execs[|s.execs|].node;
      && n in env.graph.nodes
      && (PrerequisitesMet(env.graph.nodes[n], s) || (n == env.graph.entry && s.nodes == map[]))
  {
    var n := Pick(env, s).value;
    PickIsRunnable(env, s);
    RunNodeFrame(env, s, n, n);
  }

  predicate AllSucceeded(s: State, node: NodeDef) {
    forall r :: r in node.prerequisites ==> HasStatus(s, r, Succeeded)
  }

  predicate NoneSkipped(s: State, node: NodeDef) {
    forall r :: r in node.prerequisites ==> !HasStatus(s, r, Skipped)
  }

  predicate AllSatisfied(s: State, node: NodeDef) {
    forall r :: r in node.prerequisites ==> IsSatisfied(s, r)
  }

  /**
   * A node the run loop may start has only SUCCEEDED prerequisites exactly when it is not
   * exempt as the entry of an empty assessment, no prerequisite was skipped, and a join
   * of `any` has no prerequisite left over.
   */
  lemma StartedOnSucceeded(env: Env, s: State, n: NodeId)
    requires Runnable(env, s, n)
    ensures var node := env.graph.nodes[n];
      AllSucceeded(s, node) <==>
        && (s.nodes == map[] ==> node.prerequisites == [])
        && NoneSkipped(s, node)
        && (node.join == "any" ==> AllSatisfied(s, node))
  {
    var node := env.graph.nodes[n];
    if s.nodes == map[] && node.prerequisites != [] {
      assert node.prerequisites[0] in node.prerequisites;
      assert !HasStatus(s, node.prerequisites[0], Succeeded);
    }
  }

  /** The same at any later moment of such a history. */
  lemma RanOnSucceeded(env: Env, facts: map<string, int>, events: seq<Event>, n: NodeId)
    requires Throughout(env, SatisfiedGuard(env), Initial(facts), events)
    requires Ran(History(env, Initial(facts), events), n) && n != env.graph.entry
    ensures n in env.graph.nodes
    ensures var s, node := History(env, Initial(facts), events), env.graph.nodes[n];
      AllSucceeded(s, node) <==> NoneSkipped(s, node) && (node.join == "any" ==> AllSatisfied(s, node))
  {
    PrerequisiteSafety(env, facts, events, n);
  }

  ghost predicate NeverSkips(env: Env) {
    forall n, s :: EndStatus(env.handler(n, s).end) != Skipped
  }

  predicate NothingSkipped(s: State) {
    forall n :: n in s.nodes ==> s.nodes[n].status != Skipped
  }

  lemma RunNodeSkipsNothing(env: Env, s: State, n: NodeId)
    requires NeverSkips(env) && NothingSkipped(s)
    ensures NothingSkipped(RunNode(env, s, n).state)
  {
    var t := RunNode(env, s, n).state;
    forall m | m in t.nodes
      ensures t.nodes[m].status != Skipped
    {
      RunNodeFrame(env, s, n, m);
      assert Executes(env, s, n) && m == n ==> t.nodes[n] == EndRow(env, s, n);
    }
  }

  lemma {:induction false} NothingSkippedFrom(env: Env, s: State, events: seq<Event>)
    requires NeverSkips(env) && NothingSkipped(s)
    ensures NothingSkipped(History(env, s, events))
    decreases |events|
  {
    if events != [] {
      var ev := events[0];
      if ev.PickStep? && Pick(env, s).Some? {
        RunNodeSkipsNothing(env, s, Pick(env, s).value);
      } else if ev.RunOne? {
        RunNodeSkipsNothing(env, s, ev.node);
      }
      NothingSkippedFrom(env, Apply(env, s, ev), events[1..]);
    }
  }

  /** No way round the prerequisites: joins are `all`, the entry has none, no handler skips. */
  ghost predicate Strict(env: Env) {
    && NeverSkips(env)
    && (forall n :: n in env.graph.nodes ==> env.graph.nodes[n].join != "any")
    && (env.graph.entry in env.graph.nodes ==> env.graph.nodes[env.graph.entry].prerequisites == [])
  }

  /** On such graphs, whatever operators do in between, the run loop only starts nodes on SUCCEEDED prerequisites. */
  lemma NeverBeforeSucceeded(env: Env, facts: map<string, int>, events: seq<Event>, n: NodeId)
    requires Strict(env)
    requires Runnable(env, History(env, Initial(facts), events), n)
    ensures AllSucceeded(History(env, Initial(facts), events), env.graph.nodes[n])
  {
    NothingSkippedFrom(env, Initial(facts), events);
    StartedOnSucceeded(env, History(env, Initial(facts), events), n);
  }

  /**
   * Answering touches the requesting node and the resume node only. The requesting node
   * ends SUCCEEDED exactly when it is not its own resume node; otherwise it is READY
   * again, and a satisfied prerequisite is lost.
   */
  lemma AnswerEffect(env: Env, s: State, id: nat, facts: map<string, int>, m: NodeId)
    requires CanAnswer(s, id, true)
    ensures var r, t := s.requests[id], Answer(env, s, id, true, facts);
      var resumes := r.resumeNode != "" && r.resumeNode in env.graph.nodes;
      && (r.node in s.nodes ==>
            (HasStatus(t, r.node, Succeeded) <==> !(resumes && r.resumeNode == r.node)))
      && (resumes ==> HasStatus(t, r.resumeNode, Ready) && !IsSatisfied(t, r.resumeNode))
      && (m != r.node && !(resumes && m == r.resumeNode) ==> SameRow(s, t, m))
      && Attempts(t, m) == Attempts(s, m)
  {
  }

  // ---- nodes that wait for each other --------------------------------------

  /**
   * Not the entry; a join-all node that requires a member of the group, or a join-any
   * node that requires nobody else.
   */
  ghost predicate StuckIn(env: Env, group: set<NodeId>, c: NodeId) {
    && c != env.graph.entry
    && c in env.graph.nodes
    && if env.graph.nodes[c].join == "any" then forall r :: r in env.graph.nodes[c].prerequisites ==> r in group
       else exists r :: r in env.graph.nodes[c].prerequisites && r in group
  }

  ghost predicate Deadlocked(env: Env, group: set<NodeId>) {
    forall c {:trigger StuckIn(env, group, c)} :: c in group ==> StuckIn(env, group, c)
  }

  ghost predicate Untouched(s: State, c: NodeId) {
    && (c in s.nodes ==> s.nodes[c].status == Ready)
    && !Ran(s, c)
    && forall i :: 0 <= i < |s.requests| ==> s.requests[i].node != c
  }

  ghost predicate AllUntouched(s: State, group: set<NodeId>) {
    forall c :: c in group ==> Untouched(s, c)
  }

  lemma {:induction false} RequestsAreOwn(s: State, n: NodeId, specs: seq<RequestSpec>, c: NodeId)
    requires c != n && forall i :: 0 <= i < |s.requests| ==> s.requests[i].node != c
    ensures forall i :: 0 <= i < |CreateRequests(s, n, specs).requests| ==>
      CreateRequests(s, n, specs).requests[i].node != c
    decreases |specs|
  {
    if specs != [] {
      RequestsAreOwn(CreateRequest(s, RequestOf(n, specs[0])), n, specs[1..], c);
    }
  }

  lemma GroupIsNotRunnable(env: Env, s: State, group: set<NodeId>, c: NodeId)
    requires Deadlocked(env, group) && AllUntouched(s, group) && c in group
    ensures !Runnable(env, s, c)
  {
    assert StuckIn(env, group, c);
    forall r | r in group
      ensures !IsSatisfied(s, r)
    {
      assert Untouched(s, r);
    }
    assert Untouched(s, c);
  }

  lemma RunNodeLeavesUntouched(env: Env, s: State, n: NodeId, c: NodeId)
    requires n != c && Untouched(s, c)
    ensures Untouched(RunNode(env, s, n).state, c)
  {
    RunNodeFrame(env, s, n, c);
    if Executes(env, s, n) {
      ExecutedRows(env, s, n);
      RequestsAreOwn(Begin(s, n), n, ReplyTo(env, s, n).specs, c);
    }
  }

  lemma OperatorLeavesUntouched(env: Env, s: State, ev: Event, c: NodeId)
    requires !ev.PickStep? && !ev.RunOne? && Untouched(s, c)
    ensures Untouched(Apply(env, s, ev), c)
  {
    var t := Apply(env, s, ev);
    if Ran(t, c) {
      RanAfter(env, s, ev, c);
    }
    match ev {
      case AnswerEvent(id, m, f) =>
        if CanAnswer(s, id, m) {
          assert s.requests[id].node != c;
          assert t.requests == s.requests[id := s.requests[id].(status := Resolved)];
        }
      case _ =>
    }
  }

  /** A direct run of some other node is harmless. */
  predicate SparesGroup(ev: Event, group: set<NodeId>) {
    ev.RunOne? ==> ev.node !in group
  }

  lemma EventLeavesGroup(env: Env, s: State, ev: Event, group: set<NodeId>)
    requires SparesGroup(ev, group) && Deadlocked(env, group) && AllUntouched(s, group)
    ensures AllUntouched(Apply(env, s, ev), group)
  {
    forall c | c in group
      ensures Untouched(Apply(env, s, ev), c)
    {
      if ev.PickStep? {
        if Pick(env, s).Some? {
          PickIsRunnable(env, s);
          GroupIsNotRunnable(env, s, group, c);
          RunNodeLeavesUntouched(env, s, Pick(env, s).value, c);
        }
      } else if ev.RunOne? {
        RunNodeLeavesUntouched(env, s, ev.node, c);
      } else {
        OperatorLeavesUntouched(env, s, ev, c);
      }
    }
  }

  lemma {:induction false} GroupFrom(env: Env, s: State, events: seq<Event>, group: set<NodeId>)
    requires forall i :: 0 <= i < |events| ==> SparesGroup(events[i], group)
    requires Deadlocked(env, group) && AllUntouched(s, group)
    ensures AllUntouched(History(env, s, events), group)
    decreases |events|
  {
    if events != [] {
      EventLeavesGroup(env, s, events[0], group);
      GroupFrom(env, Apply(env, s, events[0]), events[1..], group);
    }
  }

  /**
   * Nodes that require each other never execute, whatever runs, answers, unblocks,
   * crashes and restarts happen, direct runs of other nodes included; only a direct run
   * of one of the group could start one.
   */
  lemma RequirementCyclesNeverRun(env: Env, facts: map<string, int>, events: seq<Event>, group: set<NodeId>, c: NodeId)
    requires forall i :: 0 <= i < |events| ==> SparesGroup(events[i], group)
    requires Deadlocked(env, group) && c in group
    ensures !Ran(History(env, Initial(facts), events), c)
    ensures !IsSatisfied(History(env, Initial(facts), events), c)
  {
    GroupFrom(env, Initial(facts), events, group);
    assert Untouched(History(env, Initial(facts), events), c);
  }

  /** A join of `any` without requirements is never met, so only a direct run could start such a node. */
  lemma AnyOfNothingNeverRuns(env: Env, facts: map<string, int>, events: seq<Event>, n: NodeId)
    requires n in env.graph.nodes && n != env.graph.entry
    requires env.graph.nodes[n].join == "any" && env.graph.nodes[n].prerequisites == []
    requires forall i :: 0 <= i < |events| ==> events[i] != RunOne(n)
    ensures !Ran(History(env, Initial(facts), events), n)
    ensures !IsSatisfied(History(env, Initial(facts), events), n)
  {
    assert StuckIn(env, {n}, n);
    forall i | 0 <= i < |events|
      ensures SparesGroup(events[i], {n})
    {
      assert events[i] != RunOne(n);
    }
    RequirementCyclesNeverRun(env, facts, events, {n}, n);
  }

  // ---- justified activation ------------------------------------------------

  /** A path from the entry to `n` on which every node before `n` has succeeded. */
  ghost predicate SuccessPath(env: Env, s: State, p: seq<NodeId>, n: NodeId) {
    && PathBetween(env.graph, p, env.graph.entry, n)
    && forall i :: 0 <= i < |p| - 1 ==> HasStatus(s, p[i], Succeeded)
  }

  ghost predicate Justified(env: Env, s: State, n: NodeId) {
    n in s.nodes ==> exists p :: SuccessPath(env, s, p, n)
  }

  ghost predicate AllJustified(env: Env, s: State) {
    forall n :: Justified(env, s, n)
  }

  lemma EntryJustified(env: Env, s: State)
    ensures SuccessPath(env, s, [env.graph.entry], env.graph.entry)
  {
  }

  /** No SUCCEEDED node is run directly or resumed, and no answer resumes a node that has no row yet. */
  ghost predicate KeepsPaths(env: Env, s: State, ev: Event) {
    match ev
    case RunOne(m) => !HasStatus(s, m, Succeeded)
    case AnswerEvent(id, hasMaterial, _) =>
      forall m :: ResumesAt(env, s, id, hasMaterial, m) ==> m in s.nodes && !HasStatus(s, m, Succeeded)
    case _ => true
  }

  ghost function PathGuard(env: Env): Guard {
    (s, ev) => KeepsPaths(env, s, ev)
  }

  lemma SucceededStays(env: Env, s: State, ev: Event, m: NodeId)
    requires KeepsPaths(env, s, ev) && HasStatus(s, m, Succeeded)
    ensures HasStatus(Apply(env, s, ev), m, Succeeded)
  {
    match ev {
      case PickStep => PickFrame(env, s, m);
      case RunOne(n) => RunNodeFrame(env, s, n, m);
      case AnswerEvent(id, hasMaterial, _) => assert !ResumesAt(env, s, id, hasMaterial, m);
      case _ =>
    }
  }

  lemma SuccessPathStays(env: Env, s: State, ev: Event, p: seq<NodeId>, n: NodeId)
    requires KeepsPaths(env, s, ev) && SuccessPath(env, s, p, n)
    ensures SuccessPath(env, Apply(env, s, ev), p, n)
  {
    forall i | 0 <= i < |p| - 1
      ensures HasStatus(Apply(env, s, ev), p[i], Succeeded)
    {
      assert HasStatus(s, p[i], Succeeded);
      SucceededStays(env, s, ev, p[i]);
    }
  }

  /** The node that an event executes and through which it may give other nodes a row. */
  ghost function Starter(env: Env, s: State, ev: Event): NodeId {
    if ev.RunOne? then ev.node else if ev.PickStep? && Pick(env, s).Some? then Pick(env, s).value else env.graph.entry
  }

  /** A new row is the entry's, or that of an edge target of the node the event ran to success. */
  lemma NewRow(env: Env, s: State, ev: Event, m: NodeId)
    requires KeepsPaths(env, s, ev) && m !in s.nodes && m in Apply(env, s, ev).nodes && m != env.graph.entry
    ensures var n := Starter(env, s, ev);
      && HasEdge(env.graph, n, m) && HasStatus(Apply(env, s, ev), n, Succeeded)
      && (n in s.nodes || n == env.graph.entry)
  {
    match ev {
      case PickStep =>
        PickIsRunnable(env, s);
        RunNewRow(env, s, Pick(env, s).value, m);
      case RunOne(n) => RunNewRow(env, s, n, m);
      case _ =>
    }
  }

  lemma RunNewRow(env: Env, s: State, n: NodeId, m: NodeId)
    requires m !in s.nodes && m in RunNode(env, s, n).state.nodes && m != env.graph.entry
    ensures HasEdge(env.graph, n, m) && HasStatus(RunNode(env, s, n).state, n, Succeeded)
    ensures n in s.nodes || n == env.graph.entry
  {
    RunNodeFrame(env, s, n, m);
    RunNodeFrame(env, s, n, n);
  }

  lemma EventKeepsJustified(env: Env, s: State, ev: Event, m: NodeId)
    requires KeepsPaths(env, s, ev) && AllJustified(env, s)
    ensures Justified(env, Apply(env, s, ev), m)
  {
    var t := Apply(env, s, ev);
    EntryJustified(env, t);
    if m in s.nodes {
      assert Justified(env, s, m);
      var p :| SuccessPath(env, s, p, m);
      SuccessPathStays(env, s, ev, p, m);
    } else if m in t.nodes && m != env.graph.entry {
      var n := Starter(env, s, ev);
      NewRow(env, s, ev, m);
      EntryJustified(env, s);
      assert Justified(env, s, n);
      var p :| SuccessPath(env, s, p, n);
      SuccessPathStays(env, s, ev, p, n);
      ExtendPath(env, t, p, n, m);
    }
  }

  lemma ExtendPath(env: Env, s: State, p: seq<NodeId>, n: NodeId, m: NodeId)
    requires SuccessPath(env, s, p, n) && HasStatus(s, n, Succeeded) && HasEdge(env.graph, n, m)
    ensures SuccessPath(env, s, p + [m], m)
  {
    var q := p + [m];
    forall i | 0 <= i < |q| - 1
      ensures HasEdge(env.graph, q[i], q[i + 1]) && HasStatus(s, q[i], Succeeded)
    {
      if i < |p| - 1 {
        assert HasEdge(env.graph, p[i], p[i + 1]);
      }
    }
  }

  lemma {:induction false} JustifiedFrom(env: Env, s: State, events: seq<Event>)
    requires Throughout(env, PathGuard(env), s, events) && AllJustified(env, s)
    ensures AllJustified(env, History(env, s, events))
    decreases |events|
  {
    if events != [] {
      forall n { EventKeepsJustified(env, s, events[0], n); }
      JustifiedFrom(env, Apply(env, s, events[0]), events[1..]);
    }
  }

  /**
   * A node gets a row only through a path of successes, so it is reachable, as long as no
   * answer or direct run takes a success back and no answer activates a new node.
   */
  lemma JustifiedActivation(env: Env, facts: map<string, int>, events: seq<Event>, n: NodeId)
    requires Throughout(env, PathGuard(env), Initial(facts), events)
    requires n in History(env, Initial(facts), events).nodes
    ensures exists p :: SuccessPath(env, History(env, Initial(facts), events), p, n)
    ensures Reaches(env.graph, env.graph.entry, n)
  {
    JustifiedFrom(env, Initial(facts), events);
    var s := History(env, Initial(facts), events);
    assert Justified(env, s, n);
    var p :| SuccessPath(env, s, p, n);
  }

  /** Histories in which only the engine acts meet both guards. */
  lemma EngineOnlyIsGuarded(env: Env, s: State, events: seq<Event>)
    requires AllEngineOnly(events)
    ensures Throughout(env, SatisfiedGuard(env), s, events)
    ensures Throughout(env, PathGuard(env), s, events)
  {
    EngineOnlyThroughout(env, SatisfiedGuard(env), s, events);
    EngineOnlyThroughout(env, PathGuard(env), s, events);
  }
}
