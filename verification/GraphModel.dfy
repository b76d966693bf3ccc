/**
 * The assessment graph (src/sassessment/graph/model.py): nodes, conditional
 * edges, outgoing edges in priority order, reachability and validation.
 */
module GraphModel {
  import opened Prelude

  type NodeId = string

  datatype Condition = Condition(name: string, args: map<string, string>)

  /** An edge without a condition always holds. */
  datatype Edge = Edge(source: NodeId, target: NodeId, condition: Option<Condition>, priority: int)

  datatype NodeDef = NodeDef(
    nodeType: string,
    phase: string,
    handler: string,
    phaseGate: bool,
    prerequisites: seq<NodeId>,
    join: string,
    optional: bool,
    maxAttempts: int)

  /** Nodes are keyed by their own id, as the JSON loader builds them. */
  datatype Graph = Graph(entry: NodeId, nodes: map<NodeId, NodeDef>, edges: seq<Edge>, maxCycles: int)

  const NODE_TYPES := ["system", "human", "deterministic", "opencode", "validation", "checkpoint", "composite"]

  // ---- outgoing edges, in priority order -----------------------------------

  function EdgesFrom(edges: seq<Edge>, n: NodeId): seq<Edge> {
    if edges == [] then []
    else (if edges[0].source == n then [edges[0]] else []) + EdgesFrom(edges[1..], n)
  }

  /** Places `e` behind every edge of lower or equal priority. */
  function InsertByPriority(sorted: seq<Edge>, e: Edge): seq<Edge> {
    if sorted == [] || e.priority < sorted[0].priority then [e] + sorted
    else [sorted[0]] + InsertByPriority(sorted[1..], e)
  }

  function SortByPriority(edges: seq<Edge>): seq<Edge> {
    if edges == [] then []
    else InsertByPriority(SortByPriority(edges[..|edges| - 1]), edges[|edges| - 1])
  }

  function Outgoing(g: Graph, n: NodeId): seq<Edge> {
    SortByPriority(EdgesFrom(g.edges, n))
  }

  predicate SortedByPriority(edges: seq<Edge>) {
    forall i, j :: 0 <= i < j < |edges| ==> edges[i].priority <= edges[j].priority
  }

  function OfPriority(edges: seq<Edge>, p: int): seq<Edge> {
    if edges == [] then []
    else (if edges[0].priority == p then [edges[0]] else []) + OfPriority(edges[1..], p)
  }

  lemma {:induction false} OfPriorityAppend(a: seq<Edge>, b: seq<Edge>, p: int)
    ensures OfPriority(a + b, p) == OfPriority(a, p) + OfPriority(b, p)
  {
    if a == [] {
      assert a + b == b;
    } else {
      assert (a + b)[1..] == a[1..] + b;
      OfPriorityAppend(a[1..], b, p);
      var x := if a[0].priority == p then [a[0]] else [];
      var y, z := OfPriority(a[1..], p), OfPriority(b, p);
      assert x + (y + z) == (x + y) + z;
    }
  }

  lemma {:induction false} OfPriorityAbove(edges: seq<Edge>, p: int)
    requires forall e :: e in edges ==> p < e.priority
    ensures OfPriority(edges, p) == []
  {
    if edges != [] {
      assert edges[0] in edges;
      OfPriorityAbove(edges[1..], p);
    }
  }

  lemma {:induction false} InsertKeepsEdges(sorted: seq<Edge>, e: Edge)
    ensures multiset(InsertByPriority(sorted, e)) == multiset(sorted) + multiset{e}
  {
    if sorted != [] && sorted[0].priority <= e.priority {
      InsertKeepsEdges(sorted[1..], e);
      assert sorted == [sorted[0]] + sorted[1..];
    }
  }

  lemma {:induction false} InsertKeepsSorted(sorted: seq<Edge>, e: Edge)
    requires SortedByPriority(sorted)
    ensures SortedByPriority(InsertByPriority(sorted, e))
  {
    if sorted != [] && sorted[0].priority <= e.priority {
      var rest := InsertByPriority(sorted[1..], e);
      InsertKeepsSorted(sorted[1..], e);
      InsertKeepsEdges(sorted[1..], e);
      forall k | 0 <= k < |rest|
        ensures sorted[0].priority <= rest[k].priority
      {
        assert rest[k] in multiset(rest);
        assert rest[k] == e || rest[k] in sorted[1..];
      }
    }
  }

  lemma {:induction false} InsertKeepsTies(sorted: seq<Edge>, e: Edge, p: int)
    requires SortedByPriority(sorted)
    ensures OfPriority(InsertByPriority(sorted, e), p) == OfPriority(sorted, p) + OfPriority([e], p)
  {
    if sorted == [] || e.priority < sorted[0].priority {
      OfPriorityAppend([e], sorted, p);
      if e.priority == p && sorted != [] {
        OfPriorityAbove(sorted, p);
      }
    } else {
      InsertKeepsTies(sorted[1..], e, p);
      assert ([sorted[0]] + InsertByPriority(sorted[1..], e))[1..] == InsertByPriority(sorted[1..], e);
    }
  }

  /** `outgoing` is a stable sort: the same edges, by priority, ties in declaration order. */
  lemma {:induction false} SortIsStable(edges: seq<Edge>, p: int)
    ensures SortedByPriority(SortByPriority(edges))
    ensures multiset(SortByPriority(edges)) == multiset(edges)
    ensures OfPriority(SortByPriority(edges), p) == OfPriority(edges, p)
  {
    if edges != [] {
      var init, last := edges[..|edges| - 1], edges[|edges| - 1];
      assert edges == init + [last];
      SortIsStable(init, p);
      InsertKeepsEdges(SortByPriority(init), last);
      InsertKeepsSorted(SortByPriority(init), last);
      InsertKeepsTies(SortByPriority(init), last, p);
      OfPriorityAppend(init, [last], p);
    }
  }

  lemma {:induction false} EdgesFromMembers(edges: seq<Edge>, n: NodeId, e: Edge)
    ensures e in EdgesFrom(edges, n) <==> e in edges && e.source == n
  {
    if edges != [] {
      EdgesFromMembers(edges[1..], n, e);
      assert edges == [edges[0]] + edges[1..];
    }
  }

  lemma OutgoingMembers(g: Graph, n: NodeId, e: Edge)
    ensures e in Outgoing(g, n) <==> e in g.edges && e.source == n
  {
    EdgesFromMembers(g.edges, n, e);
    SortIsStable(EdgesFrom(g.edges, n), 0);
    assert e in Outgoing(g, n) <==> e in multiset(Outgoing(g, n));
  }

  // ---- where each edge stands among the outgoing ones ----------------------

  /** Edges of source `n` with a priority below `p`. */
  function CountBelow(edges: seq<Edge>, n: NodeId, p: int): nat {
    if edges == [] then 0
    else
      var last := edges[|edges| - 1];
      CountBelow(edges[..|edges| - 1], n, p) + (if last.source == n && last.priority < p then 1 else 0)
  }

  /** Edges of source `n` with priority `p`. */
  function CountAt(edges: seq<Edge>, n: NodeId, p: int): nat {
    if edges == [] then 0
    else
      var last := edges[|edges| - 1];
      CountAt(edges[..|edges| - 1], n, p) + (if last.source == n && last.priority == p then 1 else 0)
  }

  lemma {:induction false} EdgesFromPush(edges: seq<Edge>, e: Edge, n: NodeId)
    ensures EdgesFrom(edges + [e], n) == EdgesFrom(edges, n) + (if e.source == n then [e] else [])
  {
    if edges == [] {
      assert edges + [e] == [e];
    } else {
      assert (edges + [e])[1..] == edges[1..] + [e];
      EdgesFromPush(edges[1..], e, n);
    }
  }

  lemma SortPush(edges: seq<Edge>, e: Edge)
    ensures SortByPriority(edges + [e]) == InsertByPriority(SortByPriority(edges), e)
  {
    assert (edges + [e])[..|edges|] == edges;
  }

  lemma OutgoingPush(edges: seq<Edge>, e: Edge, n: NodeId)
    ensures var sorted := SortByPriority(EdgesFrom(edges, n));
      SortByPriority(EdgesFrom(edges + [e], n)) == if e.source == n then InsertByPriority(sorted, e) else sorted
  {
    EdgesFromPush(edges, e, n);
    if e.source == n {
      SortPush(EdgesFrom(edges, n), e);
    } else {
      assert EdgesFrom(edges, n) + [] == EdgesFrom(edges, n);
    }
  }

  /** A new edge goes behind all of lower or equal priority and before the others. */
  lemma {:induction false} InsertSplits(sorted: seq<Edge>, e: Edge) returns (q: nat)
    requires SortedByPriority(sorted)
    ensures q <= |sorted| && |InsertByPriority(sorted, e)| == |sorted| + 1
    ensures InsertByPriority(sorted, e)[q] == e
    ensures forall i :: 0 <= i < q ==> InsertByPriority(sorted, e)[i] == sorted[i]
    ensures forall i :: q <= i < |sorted| ==> InsertByPriority(sorted, e)[i + 1] == sorted[i]
    ensures forall i :: 0 <= i < |sorted| ==> (i < q <==> sorted[i].priority <= e.priority)
  {
    if sorted == [] || e.priority < sorted[0].priority {
      q := 0;
    } else {
      var r := InsertSplits(sorted[1..], e);
      q := r + 1;
      var rest := InsertByPriority(sorted[1..], e);
      assert forall i :: 0 <= i < |rest| ==> InsertByPriority(sorted, e)[i + 1] == rest[i];
      assert forall i :: 0 < i < |sorted| ==> sorted[i] == sorted[1..][i - 1];
      forall i | q <= i < |sorted|
        ensures InsertByPriority(sorted, e)[i + 1] == sorted[i]
      {
        assert rest[(i - 1) + 1] == sorted[1..][i - 1];
      }
    }
  }

  /** In the sorted outgoing edges exactly those up to priority `p` come first. */
  lemma {:induction false} SortedCounts(edges: seq<Edge>, n: NodeId, p: int, i: nat)
    requires i < |SortByPriority(EdgesFrom(edges, n))|
    ensures i < CountBelow(edges, n, p) + CountAt(edges, n, p) <==>
      SortByPriority(EdgesFrom(edges, n))[i].priority <= p
    ensures CountBelow(edges, n, p) + CountAt(edges, n, p) <= |SortByPriority(EdgesFrom(edges, n))|
  {
    hide InsertByPriority, EdgesFrom, SortByPriority;
    if edges == [] {
      NothingOutgoing(n);
    } else {
      var init, e := edges[..|edges| - 1], edges[|edges| - 1];
      assert edges == init + [e];
      OutgoingPush(init, e, n);
      var sorted := SortByPriority(EdgesFrom(init, n));
      SortIsStable(EdgesFrom(init, n), 0);
      CountsFit(init, n, p);
      if e.source == n {
        var q := InsertSplits(sorted, e);
        var j := if i < q then i else i - 1;
        if i != q {
          SortedCounts(init, n, p, j);
        }
        if 0 < q {
          SortedCounts(init, n, p, q - 1);
        }
        if q < |sorted| {
          SortedCounts(init, n, p, q);
        }
      } else {
        SortedCounts(init, n, p, i);
      }
    }
  }

  lemma NothingOutgoing(n: NodeId)
    ensures SortByPriority(EdgesFrom([], n)) == []
  {
  }

  lemma {:induction false} CountsFit(edges: seq<Edge>, n: NodeId, p: int)
    ensures CountBelow(edges, n, p) + CountAt(edges, n, p) <= |SortByPriority(EdgesFrom(edges, n))|
  {
    if edges != [] {
      var init, e := edges[..|edges| - 1], edges[|edges| - 1];
      assert edges == init + [e];
      OutgoingPush(init, e, n);
      CountsFit(init, n, p);
      var sorted := SortByPriority(EdgesFrom(init, n));
      SortIsStable(EdgesFrom(init, n), 0);
      var q := InsertSplits(sorted, e);
    }
  }

  /**
   * Where the `k`th declared edge stands among the outgoing ones of its source: behind all
   * of lower priority and behind the earlier ones of the same priority.
   */
  lemma {:induction false} OutgoingPositions(edges: seq<Edge>, n: NodeId, k: nat)
    requires k < |edges| && edges[k].source == n
    ensures var sorted := SortByPriority(EdgesFrom(edges, n));
      var at := CountBelow(edges, n, edges[k].priority) + CountAt(edges[..k], n, edges[k].priority);
      at < |sorted| && sorted[at] == edges[k]
  {
    hide InsertByPriority, EdgesFrom, SortByPriority;
    var init, e := edges[..|edges| - 1], edges[|edges| - 1];
    var p := edges[k].priority;
    assert edges == init + [e];
    OutgoingPush(init, e, n);
    var sorted := SortByPriority(EdgesFrom(init, n));
    SortIsStable(EdgesFrom(init, n), 0);
    CountsFit(init, n, e.priority);
    hide SortedByPriority, OfPriority;
    if k < |init| {
      OutgoingPositions(init, n, k);
      assert edges[..k] == init[..k];
      var at := CountBelow(init, n, p) + CountAt(init[..k], n, p);
      if e.source == n {
        var q := InsertSplits(sorted, e);
        assert at < q <==> sorted[at].priority <= e.priority;
      }
    } else {
      assert edges[..k] == init;
      var q := InsertSplits(sorted, e);
      if q > 0 {
        SortedCounts(init, n, p, q - 1);
      }
      if q < |sorted| {
        SortedCounts(init, n, p, q);
      }
    }
  }

  function CountOf(edges: seq<Edge>, n: NodeId): nat {
    if edges == [] then 0
    else CountOf(edges[..|edges| - 1], n) + (if edges[|edges| - 1].source == n then 1 else 0)
  }

  lemma {:induction false} OutgoingLength(edges: seq<Edge>, n: NodeId)
    ensures |SortByPriority(EdgesFrom(edges, n))| == CountOf(edges, n)
  {
    if edges == [] {
      NothingOutgoing(n);
    } else {
      var init, e := edges[..|edges| - 1], edges[|edges| - 1];
      assert edges == init + [e];
      OutgoingPush(init, e, n);
      OutgoingLength(init, n);
      SortIsStable(EdgesFrom(init, n), 0);
      var q := InsertSplits(SortByPriority(EdgesFrom(init, n)), e);
    }
  }

  /**
   * `outgoing` in full: as many edges as the node has, each behind those of lower priority
   * and behind the earlier ones of its own priority.
   */
  lemma OutgoingInOrder(g: Graph, n: NodeId, e: Edge, k: nat)
    ensures e in Outgoing(g, n) <==> e in g.edges && e.source == n
    ensures |Outgoing(g, n)| == CountOf(g.edges, n)
    ensures k < |g.edges| && g.edges[k].source == n ==>
      var at := CountBelow(g.edges, n, g.edges[k].priority) + CountAt(g.edges[..k], n, g.edges[k].priority);
      at < |Outgoing(g, n)| && Outgoing(g, n)[at] == g.edges[k]
  {
    OutgoingMembers(g, n, e);
    OutgoingLength(g.edges, n);
    if k < |g.edges| && g.edges[k].source == n {
      OutgoingPositions(g.edges, n, k);
    }
  }

  // ---- paths ---------------------------------------------------------------

  ghost predicate HasEdge(g: Graph, u: NodeId, v: NodeId) {
    exists e :: e in g.edges && e.source == u && e.target == v
  }

  /** A non-empty walk along edges. */
  ghost predicate IsPath(g: Graph, p: seq<NodeId>) {
    |p| > 0 && forall i :: 0 <= i < |p| - 1 ==> HasEdge(g, p[i], p[i + 1])
  }

  ghost predicate PathBetween(g: Graph, p: seq<NodeId>, u: NodeId, v: NodeId) {
    IsPath(g, p) && p[0] == u && p[|p| - 1] == v
  }

  ghost predicate Reaches(g: Graph, u: NodeId, v: NodeId) {
    exists p :: PathBetween(g, p, u, v)
  }

  lemma ReachesStep(g: Graph, u: NodeId, v: NodeId, e: Edge)
    requires Reaches(g, u, v) && e in g.edges && e.source == v
    ensures Reaches(g, u, e.target)
  {
    var p :| PathBetween(g, p, u, v);
    assert HasEdge(g, v, e.target);
    assert PathBetween(g, p + [e.target], u, e.target);
  }

  ghost predicate ClosedUnderEdges(g: Graph, s: set<NodeId>) {
    forall e :: e in g.edges && e.source in s ==> e.target in s
  }

  lemma {:induction false} ClosedContainsPath(g: Graph, s: set<NodeId>, p: seq<NodeId>)
    requires ClosedUnderEdges(g, s) && IsPath(g, p) && p[0] in s
    ensures p[|p| - 1] in s
  {
    if |p| > 1 {
      assert HasEdge(g, p[0], p[1]);
      var tail := p[1..];
      forall i | 0 <= i < |tail| - 1
        ensures HasEdge(g, tail[i], tail[i + 1])
      {
        assert HasEdge(g, p[i + 1], p[i + 1 + 1]);
      }
      ClosedContainsPath(g, s, tail);
    }
  }

  // ---- worklist ------------------------------------------------------------

  function Targets(edges: seq<Edge>): set<NodeId> {
    set e | e in edges :: e.target
  }

  lemma EntryReaches(g: Graph)
    ensures Reaches(g, g.entry, g.entry)
  {
    assert PathBetween(g, [g.entry], g.entry, g.entry);
  }

  /** The members of a set in ascending order. */
  method SortedNames(s: set<string>) returns (names: seq<string>)
    ensures Ascending(names) && forall n :: n in names <==> n in s
  {
    var todo := s;
    names := [];
    while todo != {}
      invariant todo <= s
      invariant Ascending(names) && forall n :: n in names <==> n in s - todo
    {
      var name :| name in todo;
      todo := todo - {name};
      InsertKeepsAscending(names, name);
      InsertMembers(names, name);
      names := Insert(names, name);
    }
  }

  /** The depth-first worklist; duplicates may sit in the frontier. */
  method ReachableNodes(g: Graph) returns (names: seq<NodeId>)
    ensures Ascending(names) && forall n :: n in names <==> Reaches(g, g.entry, n)
  {
    ghost var universe := {g.entry} + Targets(g.edges);
    var seen: set<NodeId> := {};
    var frontier := [g.entry];
    EntryReaches(g);
    while |frontier| > 0
      invariant seen <= universe && forall n :: n in frontier ==> n in universe
      invariant forall n :: n in seen || n in frontier ==> Reaches(g, g.entry, n)
      invariant g.entry in seen || g.entry in frontier
      invariant forall e :: e in g.edges && e.source in seen ==> e.target in seen || e.target in frontier
      decreases universe - seen, |frontier|
    {
      var current := frontier[|frontier| - 1];
      ghost var before := frontier;
      frontier := frontier[..|frontier| - 1];
      assert before == frontier + [current];
      if current in seen {
        continue;
      }
      ghost var rest := frontier;
      seen := seen + {current};
      var out := Outgoing(g, current);
      for i := 0 to |out|
        invariant forall n :: n in rest ==> n in frontier
        invariant forall n :: n in frontier ==> n in rest || exists k :: 0 <= k < i && out[k].target == n
        invariant forall k :: 0 <= k < i ==> out[k].target in seen || out[k].target in frontier
      {
        if out[i].target !in seen {
          frontier := frontier + [out[i].target];
        }
      }
      forall n | n in frontier
        ensures n in universe && Reaches(g, g.entry, n)
      {
        if n !in rest {
          var k :| 0 <= k < |out| && out[k].target == n;
          OutgoingMembers(g, current, out[k]);
          ReachesStep(g, g.entry, current, out[k]);
        }
      }
      forall e | e in g.edges && e.source in seen
        ensures e.target in seen || e.target in frontier
      {
        if e.source == current {
          OutgoingMembers(g, current, e);
        }
      }
    }
    assert ClosedUnderEdges(g, seen);
    forall n | Reaches(g, g.entry, n)
      ensures n in seen
    {
      var p :| PathBetween(g, p, g.entry, n);
      ClosedContainsPath(g, seen, p);
    }
    names := SortedNames(seen);
  }

  // ---- validation ----------------------------------------------------------

  datatype Problem =
    | BadNodeIds
    | NoNodes
    | EntryMissing(entry: NodeId)
    | UnknownSource(source: NodeId)
    | UnknownTarget(target: NodeId)
    | SelfLoop(loop: NodeId)
    | IllegalType(ill: NodeId)
    | HandlerMissing(bare: NodeId)
    | Unreachable(cut: seq<NodeId>)

  /** What each reported problem says about the graph. */
  ghost predicate IsProblem(g: Graph, p: Problem) {
    match p
    case BadNodeIds => "" in g.nodes
    case NoNodes => g.nodes == map[]
    case EntryMissing(n) => n == g.entry && n !in g.nodes
    case UnknownSource(n) => n !in g.nodes && exists e :: e in g.edges && e.source == n
    case UnknownTarget(n) => n !in g.nodes && exists e :: e in g.edges && e.target == n
    case SelfLoop(n) => exists e :: e in g.edges && e.source == n && e.target == n
    case IllegalType(n) => n in g.nodes && g.nodes[n].nodeType !in NODE_TYPES
    case HandlerMissing(n) =>
      && n in g.nodes
      && (g.nodes[n].nodeType == "deterministic" || g.nodes[n].nodeType == "opencode")
      && g.nodes[n].handler == ""
    case Unreachable(c) =>
      c != [] && Ascending(c) && forall n :: n in c <==> n in g.nodes && !Reaches(g, g.entry, n)
  }

  predicate EdgeProblem(p: Problem) {
    p.UnknownSource? || p.UnknownTarget? || p.SelfLoop?
  }

  predicate NodeProblem(p: Problem) {
    p.IllegalType? || p.HandlerMissing?
  }

  function ProblemsOfEdge(g: Graph, e: Edge): seq<Problem> {
    (if e.source !in g.nodes then [UnknownSource(e.source)] else []) +
    (if e.target !in g.nodes then [UnknownTarget(e.target)] else []) +
    (if e.source == e.target then [SelfLoop(e.source)] else [])
  }

  function ProblemsOfNode(id: NodeId, node: NodeDef): seq<Problem> {
    (if node.nodeType !in NODE_TYPES then [IllegalType(id)] else []) +
    (if (node.nodeType == "deterministic" || node.nodeType == "opencode") && node.handler == ""
     then [HandlerMissing(id)] else [])
  }

  method CheckEdges(g: Graph) returns (problems: seq<Problem>)
    ensures forall p :: p in problems <==> EdgeProblem(p) && IsProblem(g, p)
  {
    problems := [];
    for i := 0 to |g.edges|
      invariant forall p :: p in problems ==> exists k :: 0 <= k < i && p in ProblemsOfEdge(g, g.edges[k])
      invariant forall k, p :: 0 <= k < i && p in ProblemsOfEdge(g, g.edges[k]) ==> p in problems
    {
      problems := problems + ProblemsOfEdge(g, g.edges[i]);
    }
    forall p | EdgeProblem(p) && IsProblem(g, p)
      ensures p in problems
    {
      var e :| e in g.edges && p in ProblemsOfEdge(g, e);
      var k :| 0 <= k < |g.edges| && g.edges[k] == e;
    }
  }

  method CheckNodes(g: Graph) returns (problems: seq<Problem>)
    ensures forall p :: p in problems <==> NodeProblem(p) && IsProblem(g, p)
  {
    problems := [];
    var todo := g.nodes.Keys;
    while todo != {}
      invariant todo <= g.nodes.Keys
      invariant forall p :: p in problems ==> NodeProblem(p) && IsProblem(g, p)
      invariant forall n, p :: n in g.nodes.Keys - todo && p in ProblemsOfNode(n, g.nodes[n]) ==> p in problems
    {
      var id :| id in todo;
      problems := problems + ProblemsOfNode(id, g.nodes[id]);
      todo := todo - {id};
    }
    forall p | NodeProblem(p) && IsProblem(g, p)
      ensures p in problems
    {
      var n := if p.IllegalType? then p.ill else p.bare;
      assert p in ProblemsOfNode(n, g.nodes[n]);
    }
  }

  method CheckReachable(g: Graph) returns (problems: seq<Problem>)
    ensures forall p :: p in problems <==> p.Unreachable? && IsProblem(g, p)
  {
    var reachable := ReachableNodes(g);
    var cut := SortedNames(set n | n in g.nodes && n !in reachable);
    forall c | IsProblem(g, Unreachable(c))
      ensures c == cut
    {
      AscendingUnique(c, cut);
    }
    problems := if cut != [] then [Unreachable(cut)] else [];
  }

  /** Reports exactly the problems the graph has; an empty report is acceptance. */
  method Validate(g: Graph) returns (problems: seq<Problem>)
    ensures forall p :: p in problems <==> IsProblem(g, p)
  {
    problems :=
      (if "" in g.nodes then [BadNodeIds] else []) +
      (if g.nodes == map[] then [NoNodes] else []) +
      (if g.entry !in g.nodes then [EntryMissing(g.entry)] else []);
    var edgeProblems := CheckEdges(g);
    var nodeProblems := CheckNodes(g);
    var cutProblems := CheckReachable(g);
    problems := problems + edgeProblems + nodeProblems + cutProblems;
  }

  /** The node types the engine knows. */
  predicate KnownType(name: string) {
    || name == "system" || name == "human" || name == "deterministic" || name == "opencode"
    || name == "validation" || name == "checkpoint" || name == "composite"
  }

  predicate NodeInOrder(id: NodeId, node: NodeDef) {
    && id != "" && KnownType(node.nodeType)
    && ((node.nodeType == "deterministic" || node.nodeType == "opencode") ==> node.handler != "")
  }

  predicate EdgeInOrder(g: Graph, e: Edge) {
    e.source in g.nodes && e.target in g.nodes && e.source != e.target
  }

  ghost predicate InOrder(g: Graph) {
    && g.entry in g.nodes
    && (forall id :: id in g.nodes ==> NodeInOrder(id, g.nodes[id]))
    && (forall e :: e in g.edges ==> EdgeInOrder(g, e))
    && (forall n :: n in g.nodes <==> Reaches(g, g.entry, n))
  }

  lemma EveryEdgeInOrder(g: Graph, e: Edge)
    requires e in g.edges && forall p :: !IsProblem(g, p)
    ensures EdgeInOrder(g, e)
  {
    assert !IsProblem(g, UnknownSource(e.source)) && !IsProblem(g, UnknownTarget(e.target));
    assert !IsProblem(g, SelfLoop(e.source));
  }

  lemma EveryNodeInOrder(g: Graph, id: NodeId)
    requires id in g.nodes && forall p :: !IsProblem(g, p)
    ensures NodeInOrder(id, g.nodes[id])
  {
    assert !IsProblem(g, BadNodeIds) && !IsProblem(g, IllegalType(id)) && !IsProblem(g, HandlerMissing(id));
  }

  lemma NoProblemInOrder(g: Graph, p: Problem)
    requires InOrder(g)
    ensures !IsProblem(g, p)
  {
    match p {
      case IllegalType(n) => assert n in g.nodes ==> NodeInOrder(n, g.nodes[n]);
      case HandlerMissing(n) => assert n in g.nodes ==> NodeInOrder(n, g.nodes[n]);
      case Unreachable(c) => assert c != [] ==> c[0] in c;
      case BadNodeIds => assert forall id :: id in g.nodes ==> NodeInOrder(id, g.nodes[id]);
      case _ => assert forall e :: e in g.edges ==> EdgeInOrder(g, e);
    }
  }

  lemma AcceptedReaches(g: Graph)
    requires forall p :: !IsProblem(g, p)
    ensures g.entry in g.nodes
    ensures forall n :: n in g.nodes <==> Reaches(g, g.entry, n)
  {
    forall e | e in g.edges
      ensures EdgeInOrder(g, e)
    {
      EveryEdgeInOrder(g, e);
    }
    assert !IsProblem(g, EntryMissing(g.entry));
    var cut := SortedListExists(set n | n in g.nodes && !Reaches(g, g.entry, n));
    assert !IsProblem(g, Unreachable(cut));
    forall n | n in g.nodes
      ensures Reaches(g, g.entry, n)
    {
      assert n !in cut;
    }
    assert ClosedUnderEdges(g, g.nodes.Keys);
    forall n | Reaches(g, g.entry, n)
      ensures n in g.nodes
    {
      var p :| PathBetween(g, p, g.entry, n);
      ClosedContainsPath(g, g.nodes.Keys, p);
    }
  }

  /**
   * A graph passes validation if and only if its entry exists, its nodes have ids, known
   * types and the handlers they need, its edges join two different known nodes, and its
   * nodes are exactly those the entry reaches.
   */
  lemma ValidGraph(g: Graph)
    ensures (forall p :: !IsProblem(g, p)) <==> InOrder(g)
  {
    if forall p :: !IsProblem(g, p) {
      AcceptedReaches(g);
      forall id | id in g.nodes
        ensures NodeInOrder(id, g.nodes[id])
      {
        EveryNodeInOrder(g, id);
      }
      forall e | e in g.edges
        ensures EdgeInOrder(g, e)
      {
        EveryEdgeInOrder(g, e);
      }
    }
    if InOrder(g) {
      forall p
        ensures !IsProblem(g, p)
      {
        NoProblemInOrder(g, p);
      }
    }
  }
}
