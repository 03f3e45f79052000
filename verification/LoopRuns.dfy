/** Results about whole steps and whole runs of the event loop. */
module LoopRuns {
  import opened Wrappers
  import opened StableQueue
  import opened LoopMachine
  import opened LoopProperties

  // ---------- What only grows ----------

  /**
   Histories are extended, time does not go back, what was cancelled is not invoked, and what is in the
   scheduler was there or is new.
   */
  ghost predicate Extends(l: Loop, r: Loop) {
    && l.whens <= r.whens && l.cancelled <= r.cancelled
    && l.ran <= r.ran && (forall i | |l.ran| <= i < |r.ran| :: r.ran[i].h !in l.cancelled)
    && l.now <= r.now && l.resolution == r.resolution
    && (r.run ==> l.run)
    && (forall h <- r.ready :: h in l.ready || |l.whens| <= h)
    && (forall tm <- r.timed :: tm in l.timed || |l.whens| <= tm.item)
  }

  lemma ExtendsTransitive(a: Loop, b: Loop, c: Loop)
    requires Extends(a, b) && Extends(b, c)
    ensures Extends(a, c)
  {
  }

  lemma {:induction false} ActsExtend(l: Loop, script: seq<Action>)
    ensures Extends(l, Acts(l, script))
    decreases |script|
  {
    if script != [] && !script[0].Fail? {
      var r := Act(l, script[0]);
      ActsExtend(r, script[1..]);
      ExtendsTransitive(l, r, Acts(r, script[1..]));
    }
  }

  lemma InvokeExtends(l: Loop, script: seq<Action>)
    requires l.batch != []
    ensures Extends(l, Invoke(l, script))
  {
    if l.batch[0] !in l.cancelled {
      ActsExtend(l.(batch := l.batch[1..], ran := l.ran + [Call(l.batch[0], l.now)]), script);
    }
  }

  lemma {:induction false} RunBatchExtends(l: Loop, scripts: seq<seq<Action>>)
    ensures Extends(l, RunBatch(l, scripts))
    decreases |l.batch|
  {
    if l.batch != [] {
      var r := Invoke(l, Script(scripts, |l.ran|));
      InvokeExtends(l, Script(scripts, |l.ran|));
      RunBatchExtends(r, scripts);
      ExtendsTransitive(l, r, RunBatch(r, scripts));
    }
  }

  lemma {:induction false} RunIOExtends(l: Loop, io: seq<seq<Action>>)
    ensures Extends(l, RunIO(l, io))
    decreases |io|
  {
    if io != [] {
      ActsExtend(l, io[0]);
      RunIOExtends(Acts(l, io[0]), io[1..]);
      ExtendsTransitive(l, Acts(l, io[0]), RunIO(l, io));
    }
  }

  lemma PopPendingExtends(l: Loop, t: real)
    ensures Extends(l, PopPending(l, t))
  {
    DueAndLater(l.timed, t);
  }

  lemma TickExtends(l: Loop, d: real)
    ensures Extends(l, Ticked(l, d))
  {
  }

  lemma BeforeSelectExtends(l: Loop, e: StepEnv)
    ensures Extends(l, BeforeSelect(l, e))
  {
    var l0, l1 := Ticked(l, e.idle), PopEarly(l, e);
    TickExtends(l, e.idle);
    PopPendingExtends(l0, DueTime(l0));
    ExtendsTransitive(l, l0, l1);
    TickExtends(l1, e.pause);
    ExtendsTransitive(l, l1, BeforeSelect(l, e));
  }

  lemma AfterSelectExtends(l: Loop, e: StepEnv, next: Option<real>)
    ensures Extends(l, AfterSelect(l, e, next)) && Extends(BeforeSelect(l, e), AfterSelect(l, e, next))
  {
    var l1 := BeforeSelect(l, e);
    BeforeSelectExtends(l, e);
    ActsExtend(l1.(waits := l1.waits + [Wait(l1, next)]), e.select);
    ExtendsTransitive(l, l1, AfterSelect(l, e, next));
  }

  lemma BeforeLateExtends(l: Loop, e: StepEnv, next: Option<real>)
    ensures Extends(l, BeforeLate(l, e, next)) && Extends(AfterSelect(l, e, next), BeforeLate(l, e, next))
  {
    var l2 := AfterSelect(l, e, next);
    AfterSelectExtends(l, e, next);
    RunBatchExtends(l2, e.scripts);
    RunIOExtends(RunBatch(l2, e.scripts), e.io);
    ExtendsTransitive(l2, RunBatch(l2, e.scripts), BeforeLate(l, e, next));
    ExtendsTransitive(l, l2, BeforeLate(l, e, next));
  }

  lemma RunLateExtends(l: Loop, t: real, scripts: seq<seq<Action>>)
    ensures Extends(l, RunLate(l, t, scripts))
  {
    PopPendingExtends(l, t);
    RunBatchExtends(PopPending(l, t), scripts);
    ExtendsTransitive(l, PopPending(l, t), RunLate(l, t, scripts));
  }

  lemma StepExtends(l: Loop, e: StepEnv, next: Option<real>)
    ensures Extends(l, RunStep(l, e, next)) && Extends(BeforeLate(l, e, next), RunStep(l, e, next))
  {
    BeforeLateExtends(l, e, next);
    RunLateExtends(BeforeLate(l, e, next), DueTime(AfterSelect(l, e, next)), e.scripts);
    ExtendsTransitive(l, BeforeLate(l, e, next), RunStep(l, e, next));
  }

  lemma {:induction false} AfterRunExtends(l: Loop, rounds: seq<Round>)
    ensures Extends(l, AfterRun(l, rounds))
    decreases |rounds|
  {
    if rounds != [] {
      var r := RunStep(l, rounds[0].env, rounds[0].next);
      StepExtends(l, rounds[0].env, rounds[0].next);
      AfterRunExtends(r, rounds[1..]);
      ExtendsTransitive(l, r, AfterRun(l, rounds));
    }
  }

  // ---------- Steps and runs keep the invariant ----------

  lemma TimePasses(l: Loop, d: real)
    requires Inv(l)
    ensures Inv(Ticked(l, d))
  {
    assert forall h: nat :: Places(Ticked(l, d), h) == Places(l, h);
  }

  lemma WaitIsLogged(l: Loop, wait: Option<real>)
    requires Inv(l)
    ensures Inv(l.(waits := l.waits + [wait]))
  {
    assert forall h: nat :: Places(l.(waits := l.waits + [wait]), h) == Places(l, h);
  }

  /** When the early callbacks have been popped. */
  lemma BeforeSelectKeepsInv(l: Loop, e: StepEnv)
    requires AtBoundary(l)
    ensures Inv(BeforeSelect(l, e)) && FlagsAgree(BeforeSelect(l, e))
  {
    var l0 := Ticked(l, e.idle);
    TimePasses(l, e.idle);
    PopPendingKeepsInv(l0, DueTime(l0));
    TimePasses(PopEarly(l, e), e.pause);
  }

  lemma AfterSelectKeepsInv(l: Loop, e: StepEnv, next: Option<real>)
    requires AtBoundary(l)
    ensures Inv(AfterSelect(l, e, next)) && FlagsAgree(AfterSelect(l, e, next))
  {
    var l1 := BeforeSelect(l, e);
    BeforeSelectKeepsInv(l, e);
    WaitIsLogged(l1, Wait(l1, next));
    ActsKeepInv(l1.(waits := l1.waits + [Wait(l1, next)]), e.select);
  }

  lemma BeforeLateKeepsInv(l: Loop, e: StepEnv, next: Option<real>)
    requires AtBoundary(l)
    ensures AtBoundary(BeforeLate(l, e, next))
  {
    var l2 := AfterSelect(l, e, next);
    AfterSelectKeepsInv(l, e, next);
    RunBatchKeepsInv(l2, e.scripts);
    RunIOKeepsInv(RunBatch(l2, e.scripts), e.io);
  }

  lemma RunLateKeepsInv(l: Loop, t: real, scripts: seq<seq<Action>>)
    requires AtBoundary(l) && t <= DueTime(l)
    ensures AtBoundary(RunLate(l, t, scripts))
  {
    PopPendingKeepsInv(l, t);
    RunBatchKeepsInv(PopPending(l, t), scripts);
  }

  lemma StepKeepsInv(l: Loop, e: StepEnv, next: Option<real>)
    requires AtBoundary(l)
    ensures AtBoundary(RunStep(l, e, next))
  {
    BeforeLateKeepsInv(l, e, next);
    BeforeLateExtends(l, e, next);
    RunLateKeepsInv(BeforeLate(l, e, next), DueTime(AfterSelect(l, e, next)), e.scripts);
  }

  lemma {:induction false} RunKeepsInv(l: Loop, rounds: seq<Round>)
    requires AtBoundary(l)
    ensures AtBoundary(AfterRun(l, rounds))
    decreases |rounds|
  {
    if rounds != [] {
      StepKeepsInv(l, rounds[0].env, rounds[0].next);
      RunKeepsInv(RunStep(l, rounds[0].env, rounds[0].next), rounds[1..]);
    }
  }

  lemma StageKeepsInv(l: Loop, stage: Stage)
    requires AtBoundary(l)
    ensures AtBoundary(AfterStage(l, stage))
  {
    match stage
    case Outside(script) => ActsKeepInv(l, script);
    case Enter => assert forall h: nat :: Places(l.(run := true), h) == Places(l, h);
    case Turn(round) => StepKeepsInv(l, round.env, round.next);
  }

  lemma {:induction false} StagesKeepInv(l: Loop, stages: seq<Stage>)
    requires AtBoundary(l)
    ensures AtBoundary(AfterStages(l, stages))
    decreases |stages|
  {
    if stages != [] {
      StageKeepsInv(l, stages[0]);
      StagesKeepInv(AfterStage(l, stages[0]), stages[1..]);
    }
  }

  /** The states in which a loop can be between two steps, while its runner runs and while it does not. */
  ghost predicate Reachable(l: Loop) {
    exists now: real, resolution: real, stages: seq<Stage> ::
      resolution >= 0.0 && l == AfterStages(Fresh(now, resolution), stages)
  }

  lemma ReachableInv(l: Loop)
    requires Reachable(l)
    ensures AtBoundary(l)
  {
    var now: real, resolution: real, stages :| resolution >= 0.0 && l == AfterStages(Fresh(now, resolution), stages);
    StagesKeepInv(Fresh(now, resolution), stages);
  }

  lemma {:induction false} StagesConcat(l: Loop, a: seq<Stage>, b: seq<Stage>)
    ensures AfterStages(l, a + b) == AfterStages(AfterStages(l, a), b)
    decreases |a|
  {
    if a == [] {
      assert a + b == b;
    } else {
      assert (a + b)[1..] == a[1..] + b;
      StagesConcat(AfterStage(l, a[0]), a[1..], b);
    }
  }

  lemma {:induction false} RoundsAreStages(l: Loop, rounds: seq<Round>)
    ensures AfterStages(l, Turns(rounds)) == AfterRun(l, rounds)
    decreases |rounds|
  {
    if rounds != [] {
      assert Turns(rounds)[1..] == Turns(rounds[1..]);
      RoundsAreStages(RunStep(l, rounds[0].env, rounds[0].next), rounds[1..]);
    }
  }

  lemma ReachableStages(l: Loop, stages: seq<Stage>)
    requires Reachable(l)
    ensures Reachable(AfterStages(l, stages))
  {
    var now: real, resolution: real, before :| resolution >= 0.0 && l == AfterStages(Fresh(now, resolution), before);
    StagesConcat(Fresh(now, resolution), before, stages);
  }

  lemma FreshIsReachable(now: real, resolution: real)
    requires resolution >= 0.0
    ensures Reachable(Fresh(now, resolution))
  {
    assert AfterStages(Fresh(now, resolution), []) == Fresh(now, resolution);
  }

  /** Whatever the program does outside of `run_loop`, and wherever `run_loop` gets to, is reachable. */
  lemma ReachableRuns(l: Loop, script: seq<Action>, envs: seq<StepEnv>, rounds: seq<Round>, r: Loop)
    requires Reachable(l)
    ensures Reachable(Acts(l, script))
    ensures Follows(l.(run := true), envs, rounds, r) ==> Reachable(r)
  {
    ReachableStages(l, [Outside(script)]);
    assert [Outside(script)][1..] == [] && AfterStages(l, [Outside(script)]) == Acts(l, script);
    ReachableStages(l, [Enter]);
    assert [Enter][1..] == [] && AfterStages(l, [Enter]) == l.(run := true);
    ReachableStages(l.(run := true), Turns(rounds));
    RoundsAreStages(l.(run := true), rounds);
  }

  /**
   Handle conservation: between steps every handle ever created is in the scheduler, was invoked,
   or was dropped, once in all; and only cancelled handles are dropped.
   */
  lemma HandlesAreConserved(l: Loop, h: nat)
    requires Reachable(l) && h < |l.whens|
    ensures l.batch == []
    ensures Count(Waiting(l), h) + Count(RanIds(l.ran), h) + Count(l.dropped, h) == 1
    ensures h in l.dropped ==> h in l.cancelled
    ensures h in l.executed <==> Count(RanIds(l.ran), h) == 1
  {
    ReachableInv(l);
    assert Places(l, h) == 1;
    CountConcat(l.ready, Items(l.timed), h);
    CountIn(RanIds(l.ran), h);
  }

  lemma RanInOrder(l: Loop, i: nat, j: nat)
    requires InOrder(l) && l.batch == [] && i < j < |l.ran|
    requires Untimed(l.whens, l.ran[i].h) && Untimed(l.whens, l.ran[j].h)
    ensures l.ran[i].h < l.ran[j].h
    ensures forall h <- l.ready | Untimed(l.whens, h) :: l.ran[j].h < h
  {
    assert RanIds(l.ran) + l.batch + l.ready == RanIds(l.ran) + l.ready;
    FifoConcat(l.whens, RanIds(l.ran), l.ready);
    assert RanIds(l.ran)[i] == l.ran[i].h && RanIds(l.ran)[j] == l.ran[j].h;
    assert l.ran[j].h in RanIds(l.ran);
  }

  /** `call_soon` is first in, first out, over all the batches of a whole run. */
  lemma CallSoonIsFifo(l: Loop, i: nat, j: nat)
    requires Reachable(l) && i < j < |l.ran|
    requires Untimed(l.whens, l.ran[i].h) && Untimed(l.whens, l.ran[j].h)
    ensures l.ran[i].h < l.ran[j].h
    ensures forall h <- l.ready :: l.ran[j].h < h
  {
    ReachableInv(l);
    RanInOrder(l, i, j);
  }

  /** No timer fires before its time, to within the resolution of the clock. */
  lemma TimersAreNotEarly(l: Loop, c: Call)
    requires Reachable(l) && c in l.ran
    ensures c.h < |l.whens|
    ensures l.whens[c.h].Some? ==> l.whens[c.h].value - l.resolution <= c.at
  {
    ReachableInv(l);
  }

  // ---------- Cancelled handles ----------

  lemma CancelledStaysOut(l: Loop, r: Loop, h: nat)
    requires Extends(l, r) && h in l.cancelled && h !in RanIds(l.ran)
    ensures h !in RanIds(r.ran)
  {
    forall i | 0 <= i < |r.ran| ensures RanIds(r.ran)[i] != h {
      if i < |l.ran| { assert RanIds(l.ran)[i] in RanIds(l.ran); }
    }
  }

  /**
   A handle cancelled before its turn is never invoked. `l` is any state between two invocations of
   a batch, so the handle may be in that batch already. What follows is the rest of the batch; then,
   if it is an early one, the I/O and the late callbacks; then any number of steps.
   */
  lemma CancelledIsNeverInvoked(l: Loop, e: StepEnv, endAt: real, rounds: seq<Round>, h: nat)
    requires h in l.cancelled && h !in RanIds(l.ran)
    ensures h !in RanIds(AfterRun(RunBatch(l, e.scripts), rounds).ran)
    ensures h !in RanIds(AfterRun(RunLate(RunIO(RunBatch(l, e.scripts), e.io), endAt, e.scripts), rounds).ran)
  {
    var r := RunBatch(l, e.scripts);
    RunBatchExtends(l, e.scripts);
    AfterRunExtends(r, rounds);
    ExtendsTransitive(l, r, AfterRun(r, rounds));
    CancelledStaysOut(l, AfterRun(r, rounds), h);
    var io := RunIO(r, e.io);
    var late := RunLate(io, endAt, e.scripts);
    RunIOExtends(r, e.io);
    ExtendsTransitive(l, r, io);
    RunLateExtends(io, endAt, e.scripts);
    ExtendsTransitive(l, io, late);
    AfterRunExtends(late, rounds);
    ExtendsTransitive(l, late, AfterRun(late, rounds));
    CancelledStaysOut(l, AfterRun(late, rounds), h);
  }

  // ---------- What a step leaves behind ----------

  /** In `r` the scheduler holds only timers of `l` beyond `t`, and new handles. */
  ghost predicate OnlyLaterTimers(l: Loop, t: real, r: Loop) {
    && (forall h <- r.ready :: |l.whens| <= h)
    && (forall tm <- r.timed :: (tm.when > t && tm in l.timed) || |l.whens| <= tm.item)
  }

  lemma RunLateLeaves(l: Loop, t: real, scripts: seq<seq<Action>>)
    ensures OnlyLaterTimers(l, t, RunLate(l, t, scripts))
  {
    DueAndLater(l.timed, t);
    RunBatchExtends(PopPending(l, t), scripts);
  }

  /**
   After a step the scheduler holds, of the handles created before the late callbacks, only timers
   that lie beyond the time after `select` by more than the resolution.
   */
  lemma StepLeavesOnlyLaterTimers(l: Loop, e: StepEnv, next: Option<real>)
    ensures OnlyLaterTimers(BeforeLate(l, e, next), AfterSelect(l, e, next).now + l.resolution, RunStep(l, e, next))
  {
    AfterSelectExtends(l, e, next);
    RunLateLeaves(BeforeLate(l, e, next), DueTime(AfterSelect(l, e, next)), e.scripts);
  }

  lemma NotInScheduler(l: Loop, bound: real, r: Loop, h: nat)
    requires AtBoundary(r) && l.whens <= r.whens && DueBy(l.whens, h, bound)
    requires OnlyLaterTimers(l, bound, r)
    ensures h !in Waiting(r)
  {
    InItems(r.timed, h);
  }

  /** So a handle that is ready, or due after `select`, is out of the scheduler after the step. */
  lemma DueHandlesLeave(l: Loop, e: StepEnv, next: Option<real>, h: nat)
    requires AtBoundary(l) && DueBy(l.whens, h, AfterSelect(l, e, next).now + l.resolution)
    ensures h !in Waiting(RunStep(l, e, next))
  {
    StepExtends(l, e, next);
    StepKeepsInv(l, e, next);
    BeforeLateExtends(l, e, next);
    StepLeavesOnlyLaterTimers(l, e, next);
    NotInScheduler(BeforeLate(l, e, next), AfterSelect(l, e, next).now + l.resolution, RunStep(l, e, next), h);
  }

  /** And what is out of the scheduler has been invoked, or dropped because it was cancelled. */
  lemma DueHandlesAreServed(l: Loop, e: StepEnv, next: Option<real>, h: nat)
    requires AtBoundary(l) && DueBy(l.whens, h, AfterSelect(l, e, next).now + l.resolution)
    ensures var r := RunStep(l, e, next);
      h in RanIds(r.ran) || (h in r.dropped && h in r.cancelled)
  {
    var r := RunStep(l, e, next);
    DueHandlesLeave(l, e, next, h);
    StepKeepsInv(l, e, next);
    StepExtends(l, e, next);
    assert Places(r, h) == 1;
    CountIn(r.ready, h);
    CountIn(Items(r.timed), h);
    CountIn(RanIds(r.ran), h);
    CountIn(r.dropped, h);
  }

  // ---------- Waiting for events ----------

  ghost predicate InTimers(l: Loop, h: nat) {
    h in Items(l.timed) && h !in l.cancelled
  }

  ghost predicate IsLive(l: Loop, h: nat) {
    h in LiveOf(Waiting(l), l.cancelled)
  }

  /** What pops from the scheduler, and what stays. */
  lemma PoppedOrLeft(l: Loop, t: real, h: nat)
    ensures h in Popped(l, t) || h in Items(Later(l.timed, t)) <==> h in Waiting(l)
  {
    var due := Items(StableSort(Due(l.timed, t)));
    CountIn(due, h);
    CountSorted(Due(l.timed, t), h);
    CountSplit(l.timed, t, h);
    CountIn(Items(Due(l.timed, t)), h);
    CountIn(Items(Later(l.timed, t)), h);
    CountIn(Items(l.timed), h);
  }

  lemma PopKeepsLive(l: Loop, t: real, h: nat)
    ensures IsLive(l, h) <==> h in PopPending(l, t).batch || InTimers(PopPending(l, t), h)
  {
    PoppedOrLeft(l, t, h);
    LiveIn(Waiting(l), l.cancelled);
    LiveIn(Popped(l, t), l.cancelled);
  }

  lemma TickKeepsLive(l: Loop, d: real, h: nat)
    ensures IsLive(Ticked(l, d), h) == IsLive(l, h)
    ensures InTimers(Ticked(l, d), h) == InTimers(l, h) && Ticked(l, d).batch == l.batch
  {
  }

  lemma PopEarlyKeepsLive(l: Loop, e: StepEnv, h: nat)
    ensures IsLive(l, h) <==> h in PopEarly(l, e).batch || InTimers(PopEarly(l, e), h)
  {
    var l0 := Ticked(l, e.idle);
    TickKeepsLive(l, e.idle, h);
    PopKeepsLive(l0, DueTime(l0), h);
  }

  lemma BeforeSelectKeepsLive(l: Loop, e: StepEnv, h: nat)
    ensures IsLive(l, h) <==> h in BeforeSelect(l, e).batch || InTimers(BeforeSelect(l, e), h)
  {
    PopEarlyKeepsLive(l, e, h);
    TickKeepsLive(PopEarly(l, e), e.pause, h);
  }

  /** `select` is called without a timeout exactly when the scheduler holds no live handle. */
  lemma PollsForeverOnlyWhenIdle(l: Loop, e: StepEnv, next: Option<real>)
    requires NextEvent(BeforeSelect(l, e), next)
    ensures Wait(BeforeSelect(l, e), next) == None <==> ItemsNum(l) == 0
  {
    var l1, live := BeforeSelect(l, e), LiveOf(Waiting(l), l.cancelled);
    if live != [] {
      BeforeSelectKeepsLive(l, e, live[0]);
      InItems(l1.timed, live[0]);
    }
    if l1.batch != [] {
      BeforeSelectKeepsLive(l, e, l1.batch[0]);
    } else if next.Some? {
      BeforeSelectKeepsLive(l, e, LiveTimer(l1, next));
    }
  }

  ghost function LiveTimer(l: Loop, next: Option<real>): (h: nat)
    requires NextEvent(l, next) && next.Some?
    ensures InTimers(l, h) && Timer(next.value, h) in l.timed
  {
    var tm :| tm in l.timed && tm.item !in l.cancelled && tm.when == next.value;
    InItems(l.timed, tm.item);
    tm.item
  }

  // ---------- The stopped runner drains ----------

  predicate CreatesNothing(script: seq<Action>) {
    forall a <- script :: !a.Soon? && !a.After?
  }

  /** Nothing is enqueued in the step, and `select` sleeps no less than asked for. */
  ghost predicate Quiet(l: Loop, e: StepEnv, next: Option<real>) {
    && CreatesNothing(e.select)
    && (forall script <- e.io :: CreatesNothing(script))
    && (forall script <- e.scripts :: CreatesNothing(script))
    && (var wait := Wait(BeforeSelect(l, e), next);
        wait.Some? ==> AfterSelect(l, e, next).now >= BeforeSelect(l, e).now + wait.value)
  }

  lemma {:induction false} ActsCreateNothing(l: Loop, script: seq<Action>)
    requires CreatesNothing(script)
    ensures Acts(l, script).whens == l.whens
    decreases |script|
  {
    if script != [] && !script[0].Fail? {
      ActsCreateNothing(Act(l, script[0]), script[1..]);
    }
  }

  lemma {:induction false} BatchCreatesNothing(l: Loop, scripts: seq<seq<Action>>)
    requires forall script <- scripts :: CreatesNothing(script)
    ensures RunBatch(l, scripts).whens == l.whens
    decreases |l.batch|
  {
    if l.batch != [] {
      var x, script := l.batch[0], Script(scripts, |l.ran|);
      ActsCreateNothing(l.(batch := l.batch[1..], ran := l.ran + [Call(x, l.now)]), script);
      BatchCreatesNothing(Invoke(l, script), scripts);
    }
  }

  lemma {:induction false} IOCreatesNothing(l: Loop, io: seq<seq<Action>>)
    requires forall script <- io :: CreatesNothing(script)
    ensures RunIO(l, io).whens == l.whens
    decreases |io|
  {
    if io != [] {
      ActsCreateNothing(l, io[0]);
      IOCreatesNothing(Acts(l, io[0]), io[1..]);
    }
  }

  lemma QuietStepCreatesNothing(l: Loop, e: StepEnv, next: Option<real>)
    requires Quiet(l, e, next)
    ensures BeforeLate(l, e, next).whens == l.whens && RunStep(l, e, next).whens == l.whens
  {
    var l1, l2 := BeforeSelect(l, e), AfterSelect(l, e, next);
    ActsCreateNothing(l1.(waits := l1.waits + [Wait(l1, next)]), e.select);
    BatchCreatesNothing(l2, e.scripts);
    IOCreatesNothing(RunBatch(l2, e.scripts), e.io);
    BatchCreatesNothing(PopPending(BeforeLate(l, e, next), DueTime(l2)), e.scripts);
  }

  ghost function AsSet(hs: seq<nat>): set<nat> {
    set h | h in hs
  }

  /** Live handles in the scheduler. */
  ghost function LiveSet(l: Loop): set<nat> {
    AsSet(LiveOf(Waiting(l), l.cancelled))
  }

  lemma {:induction false} NoDuplicates(hs: seq<nat>)
    requires forall h: nat :: Count(hs, h) <= 1
    ensures |hs| == |AsSet(hs)|
  {
    if hs == [] {
      assert AsSet(hs) == {};
    } else {
      var n, x := |hs| - 1, hs[|hs| - 1];
      CountIn(hs[..n], x);
      assert Count(hs, x) <= 1;
      forall h: nat ensures Count(hs[..n], h) <= 1 { assert Count(hs, h) <= 1; }
      NoDuplicates(hs[..n]);
      assert hs == hs[..n] + [x];
      assert AsSet(hs) == AsSet(hs[..n]) + {x};
    }
  }

  lemma ItemsNumIsSize(l: Loop)
    requires Conserved(l)
    ensures ItemsNum(l) == |LiveSet(l)|
  {
    var live := LiveOf(Waiting(l), l.cancelled);
    forall h: nat ensures Count(live, h) <= 1 {
      assert Places(l, h) <= 1;
      CountConcat(l.ready, Items(l.timed), h);
      LiveAndDead(Waiting(l), l.cancelled, h);
    }
    NoDuplicates(live);
  }

  /** Some live handle becomes due while a step waits; for that the answer of `next_event` need not be least. */
  lemma SomeHandleBecomesDue(l: Loop, e: StepEnv, next: Option<real>) returns (h: nat)
    requires AtBoundary(l) && NextEvent(BeforeSelect(l, e), next) && Quiet(l, e, next) && ItemsNum(l) > 0
    ensures h in LiveSet(l) && DueBy(l.whens, h, AfterSelect(l, e, next).now + l.resolution)
  {
    var l1 := BeforeSelect(l, e);
    PollsForeverOnlyWhenIdle(l, e, next);
    BeforeSelectKeepsInv(l, e);
    AfterSelectExtends(l, e, next);
    if l1.batch != [] {
      h := l1.batch[0];
      assert h in l1.batch;
    } else {
      h := LiveTimer(l1, next);
    }
    BeforeSelectKeepsLive(l, e, h);
  }

  /** With nothing new enqueued each step makes the number of live handles smaller. */
  lemma QuietStepDecreases(l: Loop, e: StepEnv, next: Option<real>)
    requires AtBoundary(l) && NextEvent(BeforeSelect(l, e), next) && Quiet(l, e, next) && ItemsNum(l) > 0
    ensures ItemsNum(RunStep(l, e, next)) < ItemsNum(l)
  {
    var r := RunStep(l, e, next);
    StepKeepsInv(l, e, next);
    StepExtends(l, e, next);
    QuietStepCreatesNothing(l, e, next);
    var gone := SomeHandleBecomesDue(l, e, next);
    DueHandlesLeave(l, e, next, gone);
    LiveIn(Waiting(r), r.cancelled);
    LiveIn(Waiting(l), l.cancelled);
    forall h | h in LiveSet(r) ensures h in LiveSet(l) {
      InItems(r.timed, h);
      InItems(l.timed, h);
      if h in r.ready { HandleCreated(r, h); } else { assert h in Items(r.timed); HandleCreated(r, h); }
    }
    ItemsNumIsSize(l);
    ItemsNumIsSize(r);
    assert LiveSet(r) < LiveSet(l);
    SmallerSet(LiveSet(r), LiveSet(l));
  }

  lemma SmallerSet(a: set<nat>, b: set<nat>)
    requires a < b
    ensures |a| < |b|
  {
    assert b == a + (b - a);
    assert |b - a| > 0;
  }

  /** Rounds that the runner makes after `stop_loop`, all quiet. */
  ghost predicate Draining(l: Loop, rounds: seq<Round>)
    decreases |rounds|
  {
    rounds == [] ||
    (var e, next := rounds[0].env, rounds[0].next;
     && ItemsNum(l) > 0 && NextEvent(BeforeSelect(l, e), next) && Quiet(l, e, next)
     && Draining(RunStep(l, e, next), rounds[1..]))
  }

  /**
   A stopped runner whose callbacks enqueue nothing more ends after at most as many steps as
   there were live handles.
   */
  lemma {:induction false} StoppedRunnerDrains(l: Loop, rounds: seq<Round>)
    requires AtBoundary(l) && !l.run && Draining(l, rounds)
    ensures |rounds| + ItemsNum(AfterRun(l, rounds)) <= ItemsNum(l)
    ensures !AfterRun(l, rounds).run
    decreases |rounds|
  {
    if rounds != [] {
      var e, next := rounds[0].env, rounds[0].next;
      StepKeepsInv(l, e, next);
      StepExtends(l, e, next);
      QuietStepDecreases(l, e, next);
      StoppedRunnerDrains(RunStep(l, e, next), rounds[1..]);
    }
  }

  /** After `stop_loop`, however many rounds later, the runner makes no step that waits without a timeout. */
  lemma StoppedRunnerNeverHangs(l: Loop, rounds: seq<Round>, round: Round)
    requires !l.run && KeepsRunning(AfterRun(l, rounds))
    requires NextEvent(BeforeSelect(AfterRun(l, rounds), round.env), round.next)
    ensures Wait(BeforeSelect(AfterRun(l, rounds), round.env), round.next).Some?
  {
    AfterRunExtends(l, rounds);
    PollsForeverOnlyWhenIdle(AfterRun(l, rounds), round.env, round.next);
  }
}
