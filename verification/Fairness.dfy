/**
 What the event loop does for the tasks on it: it never sleeps over a task that can be stepped, steps
 every such task within one step of its own, and so unwinds a cancelled chain in as many steps as the
 chain has tasks.
 */
module Fairness {
  import opened Wrappers
  import opened FutureMachine
  import opened WakeUps
  import opened Reachability
  import opened Callbacks
  import opened HandleTable
  import opened Cancellation
  import opened LoopOfFutures
  import opened Outcomes
  import FutureRuns
  import StableQueue
  import M = LoopMachine
  import P = LoopProperties
  import R = LoopRuns
  import Entry

  // ---------- The scheduler holds the live handles ----------

  lemma SchedulerHoldsLive(l: M.Loop, s: Sys, h: HandleId)
    requires P.AtBoundary(l) && Between(l, s)
    ensures Live(s, h) <==> R.IsLive(l, h)
  {
    var waiting := M.Waiting(l);
    assert P.Places(l, h) == if h < |l.whens| then 1 else 0;
    P.CountConcat(l.ready, StableQueue.Items(l.timed), h);
    P.CountIn(waiting, h);
    P.CountIn(P.RanIds(l.ran), h);
    P.CountIn(l.dropped, h);
    P.LiveIn(waiting, l.cancelled);
  }

  /** `items_num` is 0 exactly when no live handle is left. */
  lemma NoItemsNoLive(l: M.Loop, s: Sys)
    requires P.AtBoundary(l) && Between(l, s)
    ensures M.ItemsNum(l) == 0 <==> Entry.Idle(s)
  {
    var live := StableQueue.LiveOf(M.Waiting(l), l.cancelled);
    if live != [] { SchedulerHoldsLive(l, s, live[0]); }
    forall h: HandleId | h < |s.handles| && Live(s, h) ensures live != [] { SchedulerHoldsLive(l, s, h); }
  }

  /** The task can be stepped now: nothing it waits on is unfinished. */
  predicate Runnable(s: Sys, t: Id)
    requires t < |s.futs|
  {
    s.futs[t].st.Scheduled? || s.futs[t].st.Cancelling? || (s.futs[t].st.Running? && Follow(s, t) == None)
  }

  /**
   When `select` waits without a timeout, and when the runner leaves its loop, no task is left that
   could be stepped: each is finished, was never scheduled, or waits on an unfinished future.
   */
  lemma SleepsOnlyOverWaitingTasks(l: M.Loop, s: Sys, t: Id, e: M.StepEnv, next: Option<real>)
    requires Together(l, s) && t < |s.futs|
    ensures M.NextEvent(M.BeforeSelect(l, e), next) && M.Wait(M.BeforeSelect(l, e), next) == None ==> !Runnable(s, t)
    ensures !M.KeepsRunning(l) ==> !Runnable(s, t)
  {
    TogetherReachable(l, s);
    if M.NextEvent(M.BeforeSelect(l, e), next) { R.PollsForeverOnlyWhenIdle(l, e, next); }
    NoItemsNoLive(l, s);
    if M.ItemsNum(l) == 0 { FutureRuns.QuiescentTasks(s, t); }
  }

  // ---------- A wake-up lasts until it is used ----------

  /** Handle `h` is about to step task `t`, or is doing so. */
  ghost predicate Wakes(s: Sys, t: Id, h: HandleId) {
    && h < |s.handles| && StepTarget(s.handles[h].target) == Some(t)
    && (Live(s, h) || s.cur == Some(h))
  }

  lemma CancelLeavesWake(s: Sys, e: Label, t: Id, h: HandleId)
    requires Inv(s) && Acyclic(s) && Enabled(s, e) && e.Cancel? && Wakes(s, t, h) && t < |s.futs|
    ensures t < |Next(s, e).futs|
    ensures Wakes(Next(s, e), t, h)
      || (Cancels(s, e, t) && !s.futs[t].st.Cancelling? && Next(s, e).futs[t].st.Cancelling?)
  {
    assert Halting(s, e.fut);
    LeafOfIsLast(s, e.fut);
    var leaf := LeafOf(s, e.fut);
    WaitedStateOk(s, leaf);
    if !s.futs[leaf].st.Done() && s.futs[leaf].coro != NoCoro && s.futs[leaf].coro != Executing
       && !s.futs[leaf].st.Cancelling? {
      CancelTaskShape(s, leaf, e.c);
      assert CancelLeaf(s, leaf, e.c, e.order) == CancelLeaf(s, leaf, e.c, []);
      assert WakesUp(s, leaf, h) ==> leaf == t;
      assert Next(s, e).futs[leaf].st.Cancelling?;
    }
  }

  lemma EndLeavesWake(s: Sys, e: Label, t: Id, h: HandleId)
    requires Inv(s) && Acyclic(s) && Enabled(s, e) && IsEnd(e) && Wakes(s, t, h) && EndsStepOf(s, e) != Some(t)
    ensures Wakes(Next(s, e), t, h)
  {
    match e
    case EndYield(_) => GoodYield(s, e);
    case EndStep(out, order) => StepEnds(s, CurTask(s).value, CurTask(s).value, out, order);
    case EndCallback =>
  }

  lemma OtherLeavesWake(s: Sys, e: Label, t: Id, h: HandleId)
    requires Inv(s) && Enabled(s, e) && !IsEnd(e) && !e.Cancel? && Wakes(s, t, h)
    ensures Wakes(Next(s, e), t, h)
  {
    match e
    case Begin(g) => BeginCancelsNothing(s, g);
    case RemoveCb(f, _) => assert StateOk(s, f);
    case _ =>
  }

  /** Until the step ends, the wake-up stays; or the task is cancelled, and from then on cancelling. */
  lemma WakeKept(s: Sys, e: Label, t: Id, h: HandleId)
    requires Inv(s) && Acyclic(s) && Enabled(s, e) && t < |s.futs| && Wakes(s, t, h) && EndsStepOf(s, e) != Some(t)
    ensures t < |Next(s, e).futs|
    ensures Wakes(Next(s, e), t, h)
      || (Cancels(s, e, t) && !s.futs[t].st.Cancelling? && Next(s, e).futs[t].st.Cancelling?)
  {
    EveryStepGood(s, e);
    if e.Cancel? {
      CancelLeavesWake(s, e, t, h);
    } else if IsEnd(e) {
      EndLeavesWake(s, e, t, h);
    } else {
      OtherLeavesWake(s, e, t, h);
    }
  }

  lemma CancellingKept(s: Sys, e: Label, t: Id)
    requires Inv(s) && Acyclic(s) && Enabled(s, e) && t < |s.futs|
    requires s.futs[t].st.Cancelling? && EndsStepOf(s, e) != Some(t)
    ensures t < |Next(s, e).futs| && Next(s, e).futs[t].st.Cancelling?
  {
    EveryStepGood(s, e);
    assert StateOk(s, t);
    if Moves(s, e) == Some(t) {
      if e.Begin? {
        assert HandleOk(s, e.handle);
      } else if e.Cancel? {
        HeadCancelled(s, e, t);
      }
    }
  }

  /** A run that ends no step of `t` has left its wake-up, or cancelled it for the first time. */
  lemma {:induction false} WakeKeptInRun(s: Sys, es: seq<Label>, t: Id, h: HandleId)
    requires Inv(s) && Acyclic(s) && IsRun(s, es) && t < |s.futs| && Wakes(s, t, h) && StepsOf(s, es, [t]) == 0
    ensures t < |After(s, es).futs|
    ensures Wakes(After(s, es), t, h)
      || (CancelledIn(s, es, t) && !s.futs[t].st.Cancelling? && After(s, es).futs[t].st.Cancelling?)
    decreases |es|
  {
    if es != [] {
      var e, s1 := es[0], Next(s, es[0]);
      assert Ends(s, e, [t]) == 0 && EndsStepOf(s, e) != Some(t);
      WakeKept(s, e, t, h);
      EveryStepGood(s, e);
      StepAcyclic(s, e);
      if s.futs[t].st.Cancelling? { CancellingKept(s, e, t); }
      if Wakes(s1, t, h) { WakeKeptInRun(s1, es[1..], t, h); } else { CancellingKeptInRun(s1, es[1..], t); }
    }
  }

  lemma {:induction false} CancellingKeptInRun(s: Sys, es: seq<Label>, t: Id)
    requires Inv(s) && Acyclic(s) && IsRun(s, es) && t < |s.futs| && s.futs[t].st.Cancelling?
    requires StepsOf(s, es, [t]) == 0
    ensures t < |After(s, es).futs| && After(s, es).futs[t].st.Cancelling?
    decreases |es|
  {
    if es != [] {
      assert Ends(s, es[0], [t]) == 0 && EndsStepOf(s, es[0]) != Some(t);
      CancellingKept(s, es[0], t);
      EveryStepGood(s, es[0]);
      StepAcyclic(s, es[0]);
      CancellingKeptInRun(Next(s, es[0]), es[1..], t);
    }
  }

  // ---------- One step of the loop steps every task that can be stepped ----------

  lemma RunnableHasWake(s: Sys, t: Id) returns (h: HandleId)
    requires Inv(s) && s.cur == None && t < |s.futs| && Runnable(s, t)
    ensures Wakes(s, t, h) && Live(s, h)
  {
    WaitedStateOk(s, t);
    h := if s.futs[t].st.Running? then s.futs[s.futs[t].st.waitingOn].st.sched[StepOf(t)] else s.futs[t].st.handle;
  }

  /** A live handle that steps a task does not outlast one step of the loop. */
  lemma WakeIsServed(l: M.Loop, s: Sys, a: Surroundings, next: Option<real>, t: Id, h: HandleId)
    requires P.AtBoundary(l) && Between(l, s) && Shaped(a) && Keeps(s, StepPieces(l, a, next))
    requires Wakes(s, t, h)
    ensures IsRun(s, Labels(StepPieces(l, a, next)))
    ensures !Wakes(After(s, Labels(StepPieces(l, a, next))), t, h)
  {
    StepCouples(l, s, a, next);
    var r, s' := M.RunStep(l, EnvOf(a), next), After(s, Labels(StepPieces(l, a, next)));
    assert l.whens[h] == None;
    R.DueHandlesAreServed(l, EnvOf(a), next, h);
  }

  /**
   Each step of the loop steps every task that could be stepped at its start, to the next end of a step;
   unless a cancellation reaches the task in between, which it can do only once.
   */
  lemma RunnableTasksAreStepped(l: M.Loop, s: Sys, a: Surroundings, next: Option<real>, t: Id)
    requires P.AtBoundary(l) && Between(l, s) && Shaped(a) && Keeps(s, StepPieces(l, a, next))
    requires t < |s.futs| && Runnable(s, t)
    ensures var es := Labels(StepPieces(l, a, next));
            && IsRun(s, es) && t < |After(s, es).futs|
            && (|| StepsOf(s, es, [t]) >= 1
                || (CancelledIn(s, es, t) && !s.futs[t].st.Cancelling? && After(s, es).futs[t].st.Cancelling?))
  {
    var es := Labels(StepPieces(l, a, next));
    var h := RunnableHasWake(s, t);
    WakeIsServed(l, s, a, next, t, h);
    FuturesStay(s, es);
    if StepsOf(s, es, [t]) == 0 { WakeKeptInRun(s, es, t, h); }
  }

  lemma {:induction false} FuturesStay(s: Sys, es: seq<Label>)
    requires Inv(s) && Acyclic(s) && IsRun(s, es)
    ensures |s.futs| <= |After(s, es).futs|
    decreases |es|
  {
    if es != [] {
      EveryStepGood(s, es[0]);
      StepAcyclic(s, es[0]);
      FuturesStay(Next(s, es[0]), es[1..]);
    }
  }

  // ---------- A cancelled chain fails within as many steps as it has tasks ----------

  lemma {:induction false} StepsOfOne(s: Sys, es: seq<Label>, chain: seq<Id>, t: Id)
    requires IsRun(s, es) && t in chain
    ensures StepsOf(s, es, [t]) <= StepsOf(s, es, chain)
    decreases |es|
  {
    if es != [] {
      assert Ends(s, es[0], [t]) == 1 ==> EndsStepOf(s, es[0]).value == t;
      StepsOfOne(Next(s, es[0]), es[1..], chain, t);
    }
  }

  lemma {:induction false} NoOtherCancellation(s: Sys, es: seq<Label>, chain: seq<Id>, cs: set<Exc>, t: Id)
    requires IsRun(s, es) && LetsThroughRun(s, es, chain, {}) && t in chain
    ensures !CancelledIn(s, es, t) && LetsThroughRun(s, es, chain, cs)
    decreases |es|
  {
    if es != [] { NoOtherCancellation(Next(s, es[0]), es[1..], chain, cs, t); }
  }

  lemma {:induction false} LetsThroughConcat(s: Sys, es: seq<Label>, fs: seq<Label>, chain: seq<Id>, cs: set<Exc>)
    requires IsRun(s, es) && IsRun(After(s, es), fs) && IsRun(s, es + fs) && LetsThroughRun(s, es + fs, chain, cs)
    ensures LetsThroughRun(s, es, chain, cs) && LetsThroughRun(After(s, es), fs, chain, cs)
    decreases |es|
  {
    if es == [] {
      assert es + fs == fs;
    } else {
      assert (es + fs)[1..] == es[1..] + fs;
      LetsThroughConcat(Next(s, es[0]), es[1..], fs, chain, cs);
    }
  }

  /** How many steps of the loop may still be needed: two for each task, as one cancellation may come between. */
  ghost function StepsLeft(s: Sys, chain: seq<Id>, n: nat): nat
    requires n <= |chain| && (n > 0 ==> chain[n - 1] < |s.futs|)
  {
    if n == 0 then 0 else if s.futs[chain[n - 1]].st.Cancelling? then 2 * n - 1 else 2 * n
  }

  /** No run adds to what is left. */
  lemma StepsLeftShrink(s: Sys, es: seq<Label>, chain: seq<Id>, cs: set<Exc>, n: nat) returns (left: nat)
    requires Inv(s) && Acyclic(s) && IsRun(s, es) && LetsThroughRun(s, es, chain, cs) && Unwinding(s, chain, cs, n)
    ensures left + StepsOf(s, es, chain) == n && Unwinding(After(s, es), chain, cs, left)
    ensures StepsLeft(After(s, es), chain, left) <= StepsLeft(s, chain, n)
  {
    left := UnwindsRoundByRound(s, es, chain, cs, n);
    if left == n && n > 0 && s.futs[chain[n - 1]].st.Cancelling? {
      StepsOfOne(s, es, chain, chain[n - 1]);
      CancellingKeptInRun(s, es, chain[n - 1]);
    }
  }

  lemma HeadIsRunnable(s: Sys, chain: seq<Id>, cs: set<Exc>, n: nat)
    requires Unwinding(s, chain, cs, n) && n > 0
    ensures Runnable(s, chain[n - 1])
  {
    if n < |chain| { assert FailedWith(s, chain[n], cs); }
  }

  /** A step of the loop takes one off. */
  lemma TurnUnwinds(l: M.Loop, s: Sys, a: Surroundings, next: Option<real>, chain: seq<Id>, cs: set<Exc>, n: nat)
    returns (left: nat)
    requires P.AtBoundary(l) && Between(l, s) && Shaped(a) && Keeps(s, StepPieces(l, a, next))
    requires Unwinding(s, chain, cs, n)
    requires IsRun(s, Labels(StepPieces(l, a, next))) && LetsThroughRun(s, Labels(StepPieces(l, a, next)), chain, cs)
    ensures var s' := After(s, Labels(StepPieces(l, a, next)));
      && left <= n && Unwinding(s', chain, cs, left)
      && StepsLeft(s', chain, left) <= StepsLeft(s, chain, n)
      && (n > 0 ==> StepsLeft(s', chain, left) < StepsLeft(s, chain, n))
      && (n > 0 && LetsThroughRun(s, Labels(StepPieces(l, a, next)), chain, {}) ==> left < n)
  {
    var es := Labels(StepPieces(l, a, next));
    left := StepsLeftShrink(s, es, chain, cs, n);
    if n > 0 {
      var t := chain[n - 1];
      assert t in chain;
      HeadIsRunnable(s, chain, cs, n);
      RunnableTasksAreStepped(l, s, a, next, t);
      StepsOfOne(s, es, chain, t);
      if LetsThroughRun(s, es, chain, {}) { NoOtherCancellation(s, es, chain, cs, t); }
    }
  }

  function TurnsIn(stages: seq<Stage>): nat {
    if stages == [] then 0 else TurnOf(stages[0]) + TurnsIn(stages[1..])
  }

  function TurnOf(st: Stage): nat {
    if st.Turn? then 1 else 0
  }

  lemma StageUnwinds(l: M.Loop, s: Sys, st: Stage, ps: seq<Piece>, chain: seq<Id>, cs: set<Exc>, n: nat)
    returns (left: nat)
    requires P.AtBoundary(l) && Between(l, s) && StageShaped(st) && ps == StagePieces(l, st) && Keeps(s, ps)
    requires Unwinding(s, chain, cs, n) && IsRun(s, Labels(ps)) && LetsThroughRun(s, Labels(ps), chain, cs)
    ensures Unwinding(After(s, Labels(ps)), chain, cs, left)
    ensures left == 0 || StepsLeft(After(s, Labels(ps)), chain, left) + TurnOf(st) <= StepsLeft(s, chain, n)
    ensures LetsThroughRun(s, Labels(ps), chain, {}) ==> left == 0 || left + TurnOf(st) <= n
  {
    match st
    case Turn(around, next) =>
      left := TurnUnwinds(l, s, around, next, chain, cs, n);
    case _ =>
      left := StepsLeftShrink(s, Labels(ps), chain, cs, n);
  }

  lemma FirstStage(l: M.Loop, s: Sys, stages: seq<Stage>, ps: seq<Piece>, l1: M.Loop)
    requires P.AtBoundary(l) && Between(l, s) && (forall st <- stages :: StageShaped(st)) && stages != []
    requires Keeps(s, LifePieces(l, stages))
    requires ps == StagePieces(l, stages[0]) && l1 == M.AfterStage(l, LoopStage(stages[0]))
    ensures IsRun(s, Labels(ps)) && P.AtBoundary(l1) && Between(l1, After(s, Labels(ps)))
    ensures var s1, qs := After(s, Labels(ps)), LifePieces(l1, stages[1..]);
      && Keeps(s, ps) && Keeps(s1, qs) && IsRun(s1, Labels(qs))
      && Labels(LifePieces(l, stages)) == Labels(ps) + Labels(qs)
      && IsRun(s, Labels(ps) + Labels(qs)) && After(s, Labels(ps) + Labels(qs)) == After(s1, Labels(qs))
  {
    var qs := LifePieces(l1, stages[1..]);
    KeepsConcat(s, ps, qs);
    StageCouples(l, s, stages[0], ps, l1);
    R.StageKeepsInv(l, LoopStage(stages[0]));
    LoopRunsAreRuns(l1, After(s, Labels(ps)), stages[1..]);
    LabelsConcat(ps, qs);
    RunConcat(s, Labels(ps), Labels(qs));
  }

  /** Over any stages: each step of the loop takes one off, or all have failed. */
  lemma {:induction false} StagesUnwind(l: M.Loop, s: Sys, stages: seq<Stage>, chain: seq<Id>, cs: set<Exc>, n: nat)
    returns (left: nat)
    requires P.AtBoundary(l) && Between(l, s) && (forall st <- stages :: StageShaped(st))
    requires Keeps(s, LifePieces(l, stages)) && Unwinding(s, chain, cs, n)
    requires IsRun(s, Labels(LifePieces(l, stages))) && LetsThroughRun(s, Labels(LifePieces(l, stages)), chain, cs)
    ensures var es := Labels(LifePieces(l, stages));
      && Unwinding(After(s, es), chain, cs, left)
      && (left == 0 || StepsLeft(After(s, es), chain, left) + TurnsIn(stages) <= StepsLeft(s, chain, n))
      && (LetsThroughRun(s, es, chain, {}) ==> left == 0 || left + TurnsIn(stages) <= n)
    decreases |stages|
  {
    left := n;
    if stages != [] {
      var st, rest := stages[0], stages[1..];
      var ps, l1 := StagePieces(l, st), M.AfterStage(l, LoopStage(st));
      FirstStage(l, s, stages, ps, l1);
      var qs, s1 := LifePieces(l1, rest), After(s, Labels(ps));
      LetsThroughConcat(s, Labels(ps), Labels(qs), chain, cs);
      if LetsThroughRun(s, Labels(ps) + Labels(qs), chain, {}) {
        LetsThroughConcat(s, Labels(ps), Labels(qs), chain, {});
      }
      left := StageUnwinds(l, s, st, ps, chain, cs, n);
      left := StagesUnwind(l1, s1, rest, chain, cs, left);
    }
  }

  lemma {:induction false} MoreLetThrough(s: Sys, es: seq<Label>, chain: seq<Id>, cs: set<Exc>, cs': set<Exc>)
    requires IsRun(s, es) && LetsThroughRun(s, es, chain, cs) && cs <= cs'
    ensures LetsThroughRun(s, es, chain, cs')
    decreases |es|
  {
    if es != [] { MoreLetThrough(Next(s, es[0]), es[1..], chain, cs, cs'); }
  }

  /** While a task of the chain has not failed, the runner does not leave its loop. */
  lemma UnwindingKeepsRunning(l: M.Loop, s: Sys, chain: seq<Id>, cs: set<Exc>, n: nat)
    requires P.AtBoundary(l) && Between(l, s) && Unwinding(s, chain, cs, n) && n > 0
    ensures M.KeepsRunning(l)
  {
    UnwindingIsLive(s, chain, cs, n);
    NoItemsNoLive(l, s);
  }

  /**
   After any stages that made as many steps of the loop as are left, or more, and whenever the runner has
   left its loop, all have failed.
   */
  lemma StagesUnwindAll(l: M.Loop, s: Sys, stages: seq<Stage>, chain: seq<Id>, cs: set<Exc>, n: nat)
    requires P.AtBoundary(l) && Between(l, s) && (forall st <- stages :: StageShaped(st))
    requires Keeps(s, LifePieces(l, stages)) && Unwinding(s, chain, cs, n)
    requires IsRun(s, Labels(LifePieces(l, stages))) && LetsThroughRun(s, Labels(LifePieces(l, stages)), chain, cs)
    requires || TurnsIn(stages) >= 2 * n
             || (TurnsIn(stages) >= n && LetsThroughRun(s, Labels(LifePieces(l, stages)), chain, {}))
             || !M.KeepsRunning(M.AfterStages(l, LoopStages(stages)))
    ensures AllFailed(After(s, Labels(LifePieces(l, stages))), chain, cs)
  {
    var left := StagesUnwind(l, s, stages, chain, cs, n);
    LoopRunsAreRuns(l, s, stages);
    var r, s' := M.AfterStages(l, LoopStages(stages)), After(s, Labels(LifePieces(l, stages)));
    R.StagesKeepInv(l, LoopStages(stages));
    if left > 0 { UnwindingKeepsRunning(r, s', chain, cs, left); }
    AllHaveFailed(s', chain, cs);
  }

  /** The state that a cancellation from outside of the loop's steps leaves. */
  lemma CancelFromOutside(l: M.Loop, s: Sys, chain: seq<Id>, c: Exc, order: seq<Cb>, actions: seq<M.Action>)
    requires Together(l, s) && IsChain(s, chain)
    requires Enabled(s, Cancel(chain[0], c, order)) && Step(s, Cancel(chain[0], c, order)).1 == Ok
    requires Mirrors(s.handles, Next(s, Cancel(chain[0], c, order)).handles, Cancel(chain[0], c, order), actions)
    ensures var l1, s1 := M.Acts(l, actions), Next(s, Cancel(chain[0], c, order));
      P.AtBoundary(l1) && Between(l1, s1) && Unwinding(s1, chain, {c}, Tasks(s, chain))
  {
    var e := Cancel(chain[0], c, order);
    TogetherReachable(l, s);
    CancelStartsUnwinding(s, chain, c, order);
    PieceCouples(l, s, Does(e, actions));
    LabelGrows(s, e);
    P.ActsKeepInv(l, actions);
  }

  /**
   A chain of `n` tasks is cancelled at its first task, between two steps of the loop. If no coroutine of
   the chain catches a cancellation, then after `2 * n` steps of the loop, or when the runner leaves it
   earlier, every task of the chain has failed, with that cancellation or with a later one.
   */
  lemma CancelledChainFailsInTime(l: M.Loop, s: Sys, chain: seq<Id>, c: Exc, order: seq<Cb>,
                                  actions: seq<M.Action>, stages: seq<Stage>)
    requires Together(l, s) && IsChain(s, chain)
    requires Enabled(s, Cancel(chain[0], c, order)) && Step(s, Cancel(chain[0], c, order)).1 == Ok
    requires Mirrors(s.handles, Next(s, Cancel(chain[0], c, order)).handles, Cancel(chain[0], c, order), actions)
    requires (forall st <- stages :: StageShaped(st)) &&
      var l1, s1 := M.Acts(l, actions), Next(s, Cancel(chain[0], c, order));
      && Keeps(s1, LifePieces(l1, stages)) && IsRun(s1, Labels(LifePieces(l1, stages)))
      && UncaughtRun(s1, Labels(LifePieces(l1, stages)), chain)
      && (TurnsIn(stages) >= 2 * Tasks(s, chain) || !M.KeepsRunning(M.AfterStages(l1, LoopStages(stages))))
    ensures var l1, s1 := M.Acts(l, actions), Next(s, Cancel(chain[0], c, order));
      var es := Labels(LifePieces(l1, stages));
      AllFailed(After(s1, es), chain, {c} + Requested(es))
  {
    var l1, s1 := M.Acts(l, actions), Next(s, Cancel(chain[0], c, order));
    var es := Labels(LifePieces(l1, stages));
    CancelFromOutside(l, s, chain, c, order, actions);
    RequestedAreCancelled(s1, es);
    OnlyRequested(s1, es, chain, {c} + Requested(es));
    MoreCancellations(s1, chain, {c}, {c} + Requested(es), Tasks(s, chain));
    StagesUnwindAll(l1, s1, stages, chain, {c} + Requested(es), Tasks(s, chain));
  }

  /** `n` steps are enough, and all fail with that one cancellation, if no other succeeds on the chain. */
  lemma UndisturbedChainFailsInTime(l: M.Loop, s: Sys, chain: seq<Id>, c: Exc, order: seq<Cb>,
                                    actions: seq<M.Action>, stages: seq<Stage>)
    requires Together(l, s) && IsChain(s, chain)
    requires Enabled(s, Cancel(chain[0], c, order)) && Step(s, Cancel(chain[0], c, order)).1 == Ok
    requires Mirrors(s.handles, Next(s, Cancel(chain[0], c, order)).handles, Cancel(chain[0], c, order), actions)
    requires (forall st <- stages :: StageShaped(st)) &&
      var l1, s1 := M.Acts(l, actions), Next(s, Cancel(chain[0], c, order));
      && Keeps(s1, LifePieces(l1, stages)) && IsRun(s1, Labels(LifePieces(l1, stages)))
      && LetsThroughRun(s1, Labels(LifePieces(l1, stages)), chain, {}) && TurnsIn(stages) >= Tasks(s, chain)
    ensures var l1, s1 := M.Acts(l, actions), Next(s, Cancel(chain[0], c, order));
      AllFailed(After(s1, Labels(LifePieces(l1, stages))), chain, {c})
  {
    var l1, s1 := M.Acts(l, actions), Next(s, Cancel(chain[0], c, order));
    CancelFromOutside(l, s, chain, c, order, actions);
    MoreLetThrough(s1, Labels(LifePieces(l1, stages)), chain, {}, {c});
    StagesUnwindAll(l1, s1, stages, chain, {c}, Tasks(s, chain));
  }
}
