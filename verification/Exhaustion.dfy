/**
 * What happens to a node that has used up its attempts: when it stays FAILED, and how it
 * stops every run once it is READY again and first in order.
 */
module Exhaustion {
  import opened Prelude
  import opened GraphModel
  import opened EngineState
  import opened EngineSpec
  import opened Ledger
  import opened Safety
  import opened Resume
  import Selection
  import Termination

  predicate UsedUp(env: Env, s: State, n: NodeId) {
    n in env.graph.nodes && Attempts(s, n) >= AttemptCap(env, n)
  }

  /** Does answering request `id` write the row of `n`? */
  predicate AnswerWrites(env: Env, s: State, id: nat, hasMaterial: bool, n: NodeId) {
    CanAnswer(s, id, hasMaterial) && (s.requests[id].node == n || ResumesAt(env, s, id, hasMaterial, n))
  }

  /** Does `ev` make a FAILED, used up `n` something else? */
  ghost predicate Revives(env: Env, s: State, ev: Event, n: NodeId) {
    match ev
    case PickStep => Pick(env, s).Some? && Promotes(env, s, Pick(env, s).value, n)
    case RunOne(m) => Promotes(env, s, m, n)
    case AnswerEvent(id, hasMaterial, _) => AnswerWrites(env, s, id, hasMaterial, n)
    case UnblockEvent(m) => m == n
    case _ => false
  }

  /**
   * A FAILED node without attempts left stays FAILED exactly until a predecessor's
   * success routes to it, it is unblocked, or a request of it or for it is answered.
   */
  lemma FailedStays(env: Env, s: State, ev: Event, n: NodeId)
    requires HasStatus(s, n, Failed) && UsedUp(env, s, n)
    ensures HasStatus(Apply(env, s, ev), n, Failed) <==> !Revives(env, s, ev, n)
  {
    match ev {
      case PickStep =>
        if Pick(env, s).Some? {
          RunNodeFrame(env, s, Pick(env, s).value, n);
        }
      case RunOne(m) => RunNodeFrame(env, s, m, n);
      case _ =>
    }
  }

  /** Does some event of the history, in the state it meets, revive `n`? */
  ghost predicate RevivedAlong(env: Env, s: State, events: seq<Event>, n: NodeId)
    decreases |events|
  {
    events != [] && (Revives(env, s, events[0], n) || RevivedAlong(env, Apply(env, s, events[0]), events[1..], n))
  }

  /** Attempts never fall, so a node without attempts left never runs, and never fails, again. */
  lemma UsedUpForGood(env: Env, s: State, ev: Event, n: NodeId)
    requires UsedUp(env, s, n)
    ensures UsedUp(env, Apply(env, s, ev), n)
    ensures !HasStatus(s, n, Failed) ==> !HasStatus(Apply(env, s, ev), n, Failed)
  {
    match ev {
      case PickStep =>
        if Pick(env, s).Some? {
          RunNodeFrame(env, s, Pick(env, s).value, n);
        }
      case RunOne(m) => RunNodeFrame(env, s, m, n);
      case _ =>
    }
  }

  lemma {:induction false} NeverFailsAgain(env: Env, s: State, events: seq<Event>, n: NodeId)
    requires UsedUp(env, s, n) && !HasStatus(s, n, Failed)
    ensures !HasStatus(History(env, s, events), n, Failed)
    decreases |events|
  {
    if events != [] {
      UsedUpForGood(env, s, events[0], n);
      NeverFailsAgain(env, Apply(env, s, events[0]), events[1..], n);
    }
  }

  /** Over any history: it is still FAILED at the end exactly when no event revived it. */
  lemma {:induction false} FailedForGood(env: Env, s: State, events: seq<Event>, n: NodeId)
    requires HasStatus(s, n, Failed) && UsedUp(env, s, n)
    ensures HasStatus(History(env, s, events), n, Failed) <==> !RevivedAlong(env, s, events, n)
    decreases |events|
  {
    if events != [] {
      var t := Apply(env, s, events[0]);
      FailedStays(env, s, events[0], n);
      UsedUpForGood(env, s, events[0], n);
      if HasStatus(t, n, Failed) {
        FailedForGood(env, t, events[1..], n);
      } else {
        NeverFailsAgain(env, t, events[1..], n);
      }
    }
  }

  /** The first node in order is READY but has no attempts left. */
  ghost predicate Stuck(env: Env, s: State) {
    Pick(env, s).Some? && UsedUp(env, s, Pick(env, s).value)
  }

  /** An iteration is refused exactly in a stuck state, for want of attempts, and changes nothing. */
  lemma RejectedExactly(env: Env, s: State)
    ensures Stuck(env, s) <==> Iteration(env, s).Some? && Iteration(env, s).value.attempt.Rejected?
    ensures Stuck(env, s) ==> Iteration(env, s) == Some(Step(s, Rejected(AttemptsExhausted)))
  {
  }

  /** Every run from a stuck state raises at once, whatever else is runnable. */
  lemma StuckRun(env: Env, s: State, steps: nat, transitions: int)
    requires Stuck(env, s) && steps > 0
    ensures EngineRun(env, s, steps, transitions) == EngineSpec.Run(s, [], transitions, RunRejected(AttemptsExhausted))
  {
    RejectedExactly(env, s);
  }

  lemma SameRowsSamePick(env: Env, s: State, t: State)
    requires s.nodes == t.nodes
    ensures Pick(env, s) == Pick(env, t)
  {
    forall n
      ensures Runnable(env, s, n) == Runnable(env, t, n)
    {
    }
    hide Runnable;
    forall n
      ensures IsPick(env, s, n) == IsPick(env, t, n)
    {
    }
    hide IsPick;
    if Pick(env, s).Some? {
      Selection.PickUnique(env, t, Pick(env, s).value);
    }
  }

  lemma EngineLeavesStuck(env: Env, s: State, ev: Event)
    requires Stuck(env, s) && Quiet(env, s) && EngineOnly(ev)
    ensures var t := Apply(env, s, ev);
      t.nodes == s.nodes && t.execs == s.execs && Stuck(env, t) && Quiet(env, t)
  {
    hide RunNode, Pick, OpenEngine;
    var t := Apply(env, s, ev);
    RejectedExactly(env, s);
    if ev.EngineOpened? {
      ReopenQuiet(env, s);
    }
    SameRowsSamePick(env, s, t);
    assert forall n :: HasStatus(t, n, Running) <==> HasStatus(s, n, Running);
  }

  lemma {:induction false} StuckFrom(env: Env, s: State, events: seq<Event>)
    requires Stuck(env, s) && Quiet(env, s) && AllEngineOnly(events)
    ensures var t := History(env, s, events);
      t.nodes == s.nodes && t.execs == s.execs && Stuck(env, t)
    decreases |events|
  {
    if events != [] {
      EngineLeavesStuck(env, s, events[0]);
      StuckFrom(env, Apply(env, s, events[0]), events[1..]);
    }
  }

  /**
   * A stuck assessment stays as it is, runnable nodes behind the stuck one included,
   * through any runs, restarts and outside changes, until an operator acts; every run on
   * the way raises for want of attempts, without an outcome.
   */
  lemma StuckUntilOperator(env: Env, s: State, events: seq<Event>, steps: nat, transitions: int)
    requires Stuck(env, s) && Quiet(env, s) && AllEngineOnly(events)
    ensures var t := History(env, s, events);
      && t.nodes == s.nodes && t.execs == s.execs
      && (steps > 0 ==>
            EngineRun(env, t, steps, transitions) == EngineSpec.Run(t, [], transitions, RunRejected(AttemptsExhausted)))
  {
    StuckFrom(env, s, events);
    if steps > 0 {
      StuckRun(env, History(env, s, events), steps, transitions);
    }
  }
}
