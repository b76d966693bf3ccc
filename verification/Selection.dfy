/** Selection is deterministic: the pick is the unique minimum of (phase rank, id). */
module Selection {
  import opened Prelude
  import opened GraphModel
  import opened EngineState
  import opened EngineSpec

  lemma BeforeTotal(g: Graph, a: NodeId, b: NodeId)
    requires a in g.nodes && b in g.nodes
    ensures a != b ==> Before(g, a, b) || Before(g, b, a)
    ensures !(Before(g, a, b) && Before(g, b, a))
  {
    StrLtTotal(a, b);
  }

  lemma BeforeTransitive(g: Graph, a: NodeId, b: NodeId, c: NodeId)
    requires a in g.nodes && b in g.nodes && c in g.nodes
    requires Before(g, a, b) && Before(g, b, c)
    ensures Before(g, a, c)
  {
    if PhaseRank(g.nodes[a].phase) == PhaseRank(g.nodes[b].phase) == PhaseRank(g.nodes[c].phase) {
      StrLtTransitive(a, b, c);
    }
  }

  lemma PickUnique(env: Env, s: State, n: NodeId)
    requires IsPick(env, s, n)
    ensures Pick(env, s) == Some(n)
  {
    var r := Pick(env, s);
    if r.value != n {
      BeforeTotal(env.graph, n, r.value);
    }
  }

  ghost predicate First(g: Graph, c: set<NodeId>, n: NodeId)
    requires c <= g.nodes.Keys
  {
    n in c && forall m :: m in c && m != n ==> Before(g, n, m)
  }

  /** One more node either comes before the first one or does not. */
  lemma FirstOfMore(g: Graph, rest: set<NodeId>, m: NodeId, n: NodeId)
    requires rest <= g.nodes.Keys && n in g.nodes && n !in rest && First(g, rest, m)
    ensures First(g, rest + {n}, if Before(g, m, n) then m else n)
  {
    BeforeTotal(g, n, m);
    if !Before(g, m, n) {
      forall k | k in rest
        ensures Before(g, n, k)
      {
        if k != m {
          BeforeTransitive(g, n, m, k);
        }
      }
    }
  }

  /** Every finite non-empty set of nodes has a first element. */
  lemma {:induction false} LeastExists(g: Graph, c: set<NodeId>) returns (n: NodeId)
    requires c != {} && c <= g.nodes.Keys
    ensures First(g, c, n)
  {
    hide Before;
    n :| n in c;
    var rest := c - {n};
    if rest == {} {
      assert c == {n};
    } else {
      var m := LeastExists(g, rest);
      FirstOfMore(g, rest, m, n);
      assert c == rest + {n};
      n := if Before(g, m, n) then m else n;
    }
  }

  /** Selection finds a node exactly when one is runnable. */
  lemma PickFindsRunnable(env: Env, s: State)
    ensures Pick(env, s).Some? <==> exists n :: Runnable(env, s, n)
  {
    if n :| Runnable(env, s, n) {
      var c := set m | m in env.graph.nodes && Runnable(env, s, m);
      assert n in c;
      var least := LeastExists(env.graph, c);
      PickUnique(env, s, least);
    }
  }

  /** SUCCEEDED and SKIPPED satisfy; `any` wants one prerequisite, every other join all of them. */
  ghost predicate JoinSatisfied(node: NodeDef, s: State) {
    if node.join == "any"
    then exists r :: r in node.prerequisites && (HasStatus(s, r, Succeeded) || HasStatus(s, r, Skipped))
    else forall r :: r in node.prerequisites ==> HasStatus(s, r, Succeeded) || HasStatus(s, r, Skipped)
  }

  /** The entry of an empty assessment, or a READY node whose join is satisfied. */
  ghost predicate MayStart(env: Env, s: State, n: NodeId) {
    n in env.graph.nodes &&
    if s.nodes == map[] then n == env.graph.entry
    else HasStatus(s, n, Ready) && JoinSatisfied(env.graph.nodes[n], s)
  }

  /** What selection finds may start, and it finds something whenever anything may. */
  lemma PickMayStart(env: Env, s: State)
    ensures Pick(env, s).Some? <==> exists n :: MayStart(env, s, n)
    ensures Pick(env, s).Some? ==> MayStart(env, s, Pick(env, s).value)
  {
    PickFindsRunnable(env, s);
    forall n
      ensures Runnable(env, s, n) <==> MayStart(env, s, n)
    {
      if n in env.graph.nodes {
        JoinsAgree(env.graph.nodes[n], s);
      }
    }
  }

  lemma JoinsAgree(node: NodeDef, s: State)
    ensures PrerequisitesMet(node, s) <==> JoinSatisfied(node, s)
  {
    assert forall r :: IsSatisfied(s, r) <==> HasStatus(s, r, Succeeded) || HasStatus(s, r, Skipped);
  }

  // ---- which order it is ---------------------------------------------------

  predicate IsPhase(phase: string, first: char, last: char) {
    |phase| == 6 && phase[..5] == "phase" && first <= phase[5] <= last
  }

  lemma PhaseNames(k: nat)
    requires k < |PHASE_ORDER|
    ensures |PHASE_ORDER| == 9 && PHASE_ORDER[k] == "phase" + ['0' + k as char]
  {
  }

  /** The known phases rank by their digit; every other name comes last. */
  lemma PhaseRanks(phase: string)
    ensures phase in PHASE_ORDER <==> IsPhase(phase, '0', '8')
    ensures PhaseRank(phase) == if IsPhase(phase, '0', '8') then (phase[5] - '0') as int else 99
  {
    var i := PhaseRank(phase);
    if phase in PHASE_ORDER {
      PhaseNames(i);
    }
    if IsPhase(phase, '0', '8') {
      var d := (phase[5] - '0') as int;
      PhaseNames(d);
      assert phase == phase[..5] + [phase[5]];
      assert PHASE_ORDER[d] == phase;
    }
  }

  /** `a` is a proper prefix of `b`, or smaller at the first position where they differ. */
  predicate Alphabetical(a: string, b: string) {
    || (|a| < |b| && a == b[..|a|])
    || exists k :: 0 <= k < |a| && k < |b| && a[..k] == b[..k] && a[k] < b[k]
  }

  lemma {:induction false} StrLtIsAlphabetical(a: string, b: string)
    requires StrLt(a, b)
    ensures Alphabetical(a, b)
  {
    if a != "" && a[0] == b[0] {
      StrLtIsAlphabetical(a[1..], b[1..]);
      assert a == [a[0]] + a[1..] && b == [b[0]] + b[1..];
      if k :| 0 <= k < |a[1..]| && k < |b[1..]| && a[1..][..k] == b[1..][..k] && a[1..][k] < b[1..][k] {
        assert a[..k + 1] == [a[0]] + a[1..][..k] && b[..k + 1] == [b[0]] + b[1..][..k];
        assert a[k + 1] < b[k + 1];
      } else {
        assert a == b[..|a|];
      }
    } else if a != "" {
      assert a[..0] == b[..0];
    }
  }

  /**
   * The pick has the lowest phase of all runnable nodes, phases outside phase0 to phase8
   * coming last, and within its phase the alphabetically first id.
   */
  lemma PickIsFirst(env: Env, s: State, n: NodeId, m: NodeId)
    requires Pick(env, s) == Some(n) && Runnable(env, s, m) && m != n
    ensures var p, q := env.graph.nodes[n].phase, env.graph.nodes[m].phase;
      && (IsPhase(p, '0', '8') && IsPhase(q, '0', '8') ==> p[5] <= q[5])
      && (IsPhase(q, '0', '8') ==> IsPhase(p, '0', '8'))
      && (p == q || (!IsPhase(p, '0', '8') && !IsPhase(q, '0', '8')) ==> Alphabetical(n, m))
  {
    var p, q := env.graph.nodes[n].phase, env.graph.nodes[m].phase;
    PhaseRanks(p);
    PhaseRanks(q);
    assert Before(env.graph, n, m);
    if StrLt(n, m) {
      StrLtIsAlphabetical(n, m);
    }
  }
}
