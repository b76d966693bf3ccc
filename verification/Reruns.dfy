/**
 * When is a node that has SUCCEEDED executed again? Only by a direct run, or after an
 * answer that resumes at it.
 */
module Reruns {
  import opened Prelude
  import opened GraphModel
  import opened EngineState
  import opened EngineSpec
  import opened Ledger
  import opened Safety

  /** Does the event run `n`, or make it READY again, although it has SUCCEEDED? */
  predicate RunsAgain(env: Env, s: State, ev: Event, n: NodeId) {
    match ev
    case RunOne(m) => m == n && Executes(env, s, n)
    case AnswerEvent(id, hasMaterial, _) => ResumesAt(env, s, id, hasMaterial, n)
    case _ => false
  }

  /** `n` is left alone: still SUCCEEDED, and no new execution is its own. */
  predicate LeftAlone(s: State, t: State, n: NodeId) {
    && HasStatus(t, n, Succeeded)
    && forall i :: |s.execs| <= i < |t.execs| ==> t.execs[i].node != n
  }

  /** A SUCCEEDED node is left alone by exactly the other events. */
  lemma SucceededLeftAlone(env: Env, s: State, ev: Event, n: NodeId)
    requires HasStatus(s, n, Succeeded)
    ensures LeftAlone(s, Apply(env, s, ev), n) <==> !RunsAgain(env, s, ev, n)
  {
    match ev {
      case PickStep =>
        if Pick(env, s).Some? {
          PickIsRunnable(env, s);
          RunNodeFrame(env, s, Pick(env, s).value, n);
        }
      case RunOne(m) =>
        RunNodeFrame(env, s, m, n);
        RunNodeFrame(env, s, m, m);
        if m == n && Executes(env, s, n) {
          assert Apply(env, s, ev).execs[|s.execs|] == EndExecution(env, s, n);
        }
      case _ =>
    }
  }

  predicate SuccessAt(execs: seq<Execution>, i: int, n: NodeId) {
    0 <= i < |execs| && execs[i].node == n && execs[i].status == Succeeded
  }

  ghost predicate OnceAtMost(execs: seq<Execution>, n: NodeId) {
    forall i, j :: SuccessAt(execs, i, n) && SuccessAt(execs, j, n) ==> i == j
  }

  /** At most one success so far, and a success shows in the node's row. */
  ghost predicate OneSuccess(s: State, n: NodeId) {
    && OnceAtMost(s.execs, n)
    && forall i :: SuccessAt(s.execs, i, n) ==> HasStatus(s, n, Succeeded)
  }

  /** A SUCCEEDED `n` is neither run directly nor resumed. */
  predicate SparesSucceeded(env: Env, s: State, ev: Event, n: NodeId) {
    HasStatus(s, n, Succeeded) ==> !RunsAgain(env, s, ev, n)
  }

  ghost function SuccessGuard(env: Env, n: NodeId): Guard {
    (s, ev) => SparesSucceeded(env, s, ev, n)
  }

  lemma RunKeepsOneSuccess(env: Env, s: State, m: NodeId, n: NodeId)
    requires OneSuccess(s, n) && (HasStatus(s, n, Succeeded) ==> !(m == n && Executes(env, s, n)))
    ensures OneSuccess(RunNode(env, s, m).state, n)
  {
    var t := RunNode(env, s, m).state;
    RunNodeFrame(env, s, m, n);
    RunNodeFrame(env, s, m, m);
    forall i | SuccessAt(t.execs, i, n)
      ensures SuccessAt(s.execs, i, n) || (i == |s.execs| && m == n && HasRow(t, n, EndRow(env, s, n)))
    {
    }
  }

  lemma EventKeepsOneSuccess(env: Env, s: State, ev: Event, n: NodeId)
    requires OneSuccess(s, n) && SparesSucceeded(env, s, ev, n)
    ensures OneSuccess(Apply(env, s, ev), n)
  {
    match ev {
      case PickStep =>
        if Pick(env, s).Some? {
          PickIsRunnable(env, s);
          RunKeepsOneSuccess(env, s, Pick(env, s).value, n);
        }
      case RunOne(m) => RunKeepsOneSuccess(env, s, m, n);
      case _ =>
        OtherEventsKeepSuccesses(env, s, ev, n);
        if HasStatus(s, n, Succeeded) {
          SucceededLeftAlone(env, s, ev, n);
        }
    }
  }

  lemma OtherEventsKeepSuccesses(env: Env, s: State, ev: Event, n: NodeId)
    requires !ev.PickStep? && !ev.RunOne?
    ensures forall i :: SuccessAt(Apply(env, s, ev).execs, i, n) ==> SuccessAt(s.execs, i, n)
  {
  }

  lemma {:induction false} OneSuccessFrom(env: Env, s: State, events: seq<Event>, n: NodeId)
    requires Throughout(env, SuccessGuard(env, n), s, events) && OneSuccess(s, n)
    ensures OneSuccess(History(env, s, events), n)
    decreases |events|
  {
    if events != [] {
      EventKeepsOneSuccess(env, s, events[0], n);
      OneSuccessFrom(env, Apply(env, s, events[0]), events[1..], n);
    }
  }

  /**
   * In every history that neither runs the SUCCEEDED node directly nor resumes at it, the
   * node succeeds at most once, and from then on its row says so.
   */
  lemma SucceedsOnce(env: Env, facts: map<string, int>, events: seq<Event>, n: NodeId)
    requires Throughout(env, SuccessGuard(env, n), Initial(facts), events)
    ensures var s := History(env, Initial(facts), events);
      && OnceAtMost(s.execs, n)
      && (forall i :: SuccessAt(s.execs, i, n) ==> HasStatus(s, n, Succeeded))
  {
    OneSuccessFrom(env, Initial(facts), events, n);
  }
}
