/**
 Results about every reachable state of futures and tasks: no internal guard trips, every task has
 exactly the wake-ups it should have, and result callbacks are called exactly once.
 */
module FutureRuns {
  import opened Wrappers
  import opened FutureMachine
  import opened WakeUps
  import opened Reachability
  import opened Callbacks

  /**
   No internal guard trips in any run: a task is never resumed after its end, a future never
   resumes its awaiter before it is finished, no task state is built on the wrong coroutine
   state, no scheduled handle was executed already, and `_cancel` always terminates. A call that
   raises has changed nothing.
   */
  lemma GuardsUnreachable(s: Sys, e: Label)
    requires Reachable(s) && Enabled(s, e)
    ensures !IsGuard(Step(s, e).1)
    ensures Step(s, e).1.Raises? ==> Next(s, e) == s
  {
    ReachableInv(s);
    EveryStepGood(s, e);
  }

  // ---------- Exactly one wake-up ----------

  /** A way in which the loop can come to step a task. */
  datatype WakeUp = ByHandle(h: HandleId) | ByFuture(f: Id)

  ghost function WakeUpsOf(s: Sys, t: Id): set<WakeUp> {
    (set h: HandleId | h < |s.handles| && Live(s, h) && StepTarget(s.handles[h].target) == Some(t) :: ByHandle(h))
    + (set f: Id | f < |s.futs| && !s.futs[f].st.Done() && StepOf(t) in s.futs[f].st.cbs :: ByFuture(f))
  }

  /** The wake-up that the state of `t` calls for. */
  ghost function ExpectedWakeUps(s: Sys, t: Id): set<WakeUp>
    requires t < |s.futs|
  {
    if s.futs[t].coro == Executing then {}
    else
      match s.futs[t].st
      case Scheduled(_, h) => {ByHandle(h)}
      case Cancelling(_, h, _) => {ByHandle(h)}
      case Running(_, w) =>
        if w >= |s.futs| then {}
        else if !s.futs[w].st.Done() then {ByFuture(w)}
        else if StepOf(t) in s.futs[w].st.sched then {ByHandle(s.futs[w].st.sched[StepOf(t)])} else {}
      case _ => {}
  }

  lemma WakeUpsExpected(s: Sys, t: Id)
    requires Inv(s) && t < |s.futs|
    ensures WakeUpsOf(s, t) == ExpectedWakeUps(s, t)
  {
    WaitedStateOk(s, t);
    forall x | x in WakeUpsOf(s, t) ensures x in ExpectedWakeUps(s, t) {
      match x
      case ByHandle(h) => assert HandleOk(s, h);
      case ByFuture(f) => assert RegisteredOk(s, f, t);
    }
  }

  /**
   In every reachable state a task whose coroutine is not executing has exactly one wake-up
   while it is scheduled, cancelling or running, and none before it is scheduled, while it
   executes, or after its end.
   */
  lemma ExactlyOneWakeUp(s: Sys, t: Id)
    requires Reachable(s) && t < |s.futs|
    ensures |WakeUpsOf(s, t)| ==
            if s.futs[t].coro != Executing
               && (s.futs[t].st.Scheduled? || s.futs[t].st.Cancelling? || s.futs[t].st.Running?)
            then 1 else 0
  {
    ReachableInv(s);
    WakeUpsExpected(s, t);
    WaitedStateOk(s, t);
  }

  /** So a task that can never again be stepped is finished, was never scheduled, or waits. */
  lemma QuiescentTasks(s: Sys, t: Id)
    requires Reachable(s) && t < |s.futs| && s.cur == None
    requires forall h: HandleId | h < |s.handles| :: !Live(s, h)
    ensures s.futs[t].st.Done() || s.futs[t].st.Pending? || s.futs[t].st.Created? || Follow(s, t).Some?
  {
    ReachableInv(s);
    WaitedStateOk(s, t);
  }

  // ---------- Result callbacks ----------

  /**
   A callback of an unfinished future that is not removed during a run has not been called as
   long as the future is unfinished. Once the future has finished, either a live handle is about
   to call it or it has been called exactly once; when no live handle is left, it has been.
   */
  lemma CallbackFiresExactlyOnce(s: Sys, es: seq<Label>, f: Id, k: nat)
    requires Reachable(s) && f < |s.futs| && !s.futs[f].st.Done() && User(k) in s.futs[f].st.cbs
    requires IsRun(s, es) && RemoveCb(f, k) !in es
    ensures var s' := After(s, es);
            && f < |s'.futs|
            && (!s'.futs[f].st.Done() ==> User(k) in s'.futs[f].st.cbs && Calls(s', f, k) == 0)
            && (s'.futs[f].st.Done() ==>
                  && User(k) in s'.futs[f].st.sched
                  && Calls(s', f, k) == if Live(s', s'.futs[f].st.sched[User(k)]) then 0 else 1)
            && (s'.futs[f].st.Done() && (forall h: HandleId | h < |s'.handles| :: !Live(s', h)) ==>
                  Calls(s', f, k) == 1)
  {
    ReachableInv(s);
    ArmedRun(s, es, f, k);
    RunKeepsInv(s, es);
    ArmedCalls(After(s, es), f, k);
  }

  /**
   Once a callback has been removed, whether from the set of a pending future or by cancelling
   the handle of a finished one, the loop does not call it again unless it is added again.
   */
  lemma RemovedCallbackNeverFires(s: Sys, f: Id, k: nat, es: seq<Label>)
    requires Reachable(s) && f < |s.futs|
    requires IsRun(Next(s, RemoveCb(f, k)), es) && AddCb(f, k) !in es
    ensures Calls(After(Next(s, RemoveCb(f, k)), es), f, k) == Calls(s, f, k)
  {
    ReachableInv(s);
    var e := RemoveCb(f, k);
    StepKeepsUser(s, e, f, k);
    StepRanExtends(s, e);
    CallsExtend(s.handles, Next(s, e).handles, s.ran, f, k);
    EveryStepGood(s, e);
    StepAcyclic(s, e);
    RemovedRun(Next(s, e), es, f, k);
  }
}
