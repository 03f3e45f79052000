/** When the event loop calls a timer, how long it waits, and how it is stopped. */
module LoopTimes {
  import opened Wrappers
  import opened StableQueue
  import opened LoopMachine
  import opened LoopProperties
  import opened LoopRuns
  import opened LoopMoments

  // ---------- call_later ----------

  /** A new timer lies `timeout` ahead of the clock; without a timeout the new handle is the last one ready. */
  lemma CallLaterAnswers(l: Loop, timeout: real)
    ensures timeout != 0.0 ==>
      Act(l, After(timeout)) ==
        l.(whens := l.whens + [Some(l.now + timeout)], timed := l.timed + [Timer(l.now + timeout, |l.whens|)])
    ensures timeout == 0.0 ==>
      Act(l, After(timeout)) == Act(l, Soon) == l.(whens := l.whens + [None], ready := l.ready + [|l.whens|])
  {
  }

  lemma ThenExtends(l: Loop, m: Moment)
    ensures l.whens <= Then(l, m).whens && l.ran <= Then(l, m).ran
  {
  }

  lemma {:induction false} ThensExtend(l: Loop, ms: seq<Moment>, k: nat)
    requires k <= |ms|
    ensures Thens(l, ms[..k]).whens <= Thens(l, ms).whens && Thens(l, ms[..k]).ran <= Thens(l, ms).ran
  {
    if k < |ms| {
      var before := ms[..|ms| - 1];
      assert before[..k] == ms[..k];
      ThensExtend(l, before, k);
      ThenExtends(Thens(l, before), ms[|ms| - 1]);
    } else {
      assert ms[..k] == ms;
    }
  }

  lemma NextMoment(l: Loop, ms: seq<Moment>, k: nat)
    requires k < |ms|
    ensures Thens(l, ms[..k + 1]) == Then(Thens(l, ms[..k]), ms[k])
  {
    assert ms[..k + 1][..k] == ms[..k];
  }

  lemma CreatedAt(l0: Loop, ms: seq<Moment>, k: nat, timeout: real) returns (when: real)
    requires k < |ms| && ms[k] == Does(After(timeout)) && timeout != 0.0
    ensures var created, r := Thens(l0, ms[..k]), Thens(l0, ms);
      |created.whens| < |r.whens| && r.whens[|created.whens|] == Some(when) && when == created.now + timeout
  {
    when := Thens(l0, ms[..k]).now + timeout;
    NextMoment(l0, ms, k);
    CallLaterAnswers(Thens(l0, ms[..k]), timeout);
    ThensExtend(l0, ms, k + 1);
  }

  lemma CalledAt(l0: Loop, ms: seq<Moment>, j: nat) returns (c: Call)
    requires j < |ms| && ms[j] == Calls && Thens(l0, ms[..j]).batch != []
    ensures var called, r := Thens(l0, ms[..j]), Thens(l0, ms);
      c in r.ran && c.h == called.batch[0] && c.at == called.now
  {
    c := Call(Thens(l0, ms[..j]).batch[0], Thens(l0, ms[..j]).now);
    NextMoment(l0, ms, j);
    ThensExtend(l0, ms, j + 1);
    assert Thens(l0, ms).ran[|Thens(l0, ms[..j]).ran|] == c;
  }

  lemma LifeIsOnTime(now: real, resolution: real, stages: seq<Stage>)
    requires resolution >= 0.0
    ensures var r := AfterStages(Fresh(now, resolution), stages);
      && OnTime(r) && r.resolution == resolution
      && r == Thens(Fresh(now, resolution), OfLife(Fresh(now, resolution), stages))
  {
    var l0 := Fresh(now, resolution);
    FreshIsReachable(now, resolution);
    ReachableStages(l0, stages);
    ReachableInv(AfterStages(l0, stages));
    StagesKeepResolution(l0, stages);
    LifeMoments(l0, stages);
  }

  /**
   In every life of a loop: a handle that `call_later(timeout)` creates when the clock shows `t0` is not
   called before the clock shows `t0 + timeout`, to within the resolution of the clock.
   */
  lemma TimersRunAfterTheirTimeout(now: real, resolution: real, stages: seq<Stage>, k: nat, timeout: real, j: nat)
    requires resolution >= 0.0 && timeout != 0.0
    requires var ms := OfLife(Fresh(now, resolution), stages);
      k < |ms| && ms[k] == Does(After(timeout)) && j < |ms| && ms[j] == Calls
    requires var l0 := Fresh(now, resolution);
      var created, called := Thens(l0, OfLife(l0, stages)[..k]), Thens(l0, OfLife(l0, stages)[..j]);
      called.batch != [] && called.batch[0] == |created.whens|
    ensures var l0 := Fresh(now, resolution);
      var created, called := Thens(l0, OfLife(l0, stages)[..k]), Thens(l0, OfLife(l0, stages)[..j]);
      created.now + timeout - resolution <= called.now
  {
    var l0 := Fresh(now, resolution);
    var ms := OfLife(l0, stages);
    LifeIsOnTime(now, resolution, stages);
    var when := CreatedAt(l0, ms, k, timeout);
    var c := CalledAt(l0, ms, j);
    CalledInTime(Thens(l0, ms), c, when);
  }

  lemma CalledInTime(r: Loop, c: Call, when: real)
    requires OnTime(r) && c in r.ran && c.h < |r.whens| && r.whens[c.h] == Some(when)
    ensures when - r.resolution <= c.at
  {
  }

  lemma {:induction false} StagesKeepResolution(l: Loop, stages: seq<Stage>)
    ensures AfterStages(l, stages).resolution == l.resolution
    decreases |stages|
  {
    if stages != [] {
      match stages[0] {
        case Turn(round) => StepExtends(l, round.env, round.next);
        case _ =>
      }
      StagesKeepResolution(AfterStage(l, stages[0]), stages[1..]);
    }
  }

  // ---------- stop_loop ----------

  /** The callback gets to a `stop_loop` before it raises. */
  ghost predicate CallsStop(script: seq<Action>) {
    exists i | 0 <= i < |script| :: script[i].Stop? && forall j | 0 <= j < i :: !script[j].Fail?
  }

  lemma CallsStopNext(script: seq<Action>)
    requires script != []
    ensures CallsStop(script) <==> script[0].Stop? || (!script[0].Fail? && CallsStop(script[1..]))
  {
    var rest := script[1..];
    if i :| 0 <= i < |script| && script[i].Stop? && forall j | 0 <= j < i :: !script[j].Fail? {
      if i > 0 { assert rest[i - 1] == script[i] && forall j | 0 <= j < i - 1 :: rest[j] == script[j + 1]; }
    }
    if !script[0].Fail? && CallsStop(rest) {
      var i :| 0 <= i < |rest| && rest[i].Stop? && forall j | 0 <= j < i :: !rest[j].Fail?;
      assert script[i + 1].Stop? && forall j | 0 < j < i + 1 :: script[j] == rest[j - 1];
    }
  }

  /** A callback clears the flag if it gets to a `stop_loop`, and leaves it alone otherwise. */
  lemma {:induction false} CallbackStops(l: Loop, script: seq<Action>)
    ensures Acts(l, script).run <==> l.run && !CallsStop(script)
    decreases |script|
  {
    if script != [] {
      CallsStopNext(script);
      if !script[0].Fail? { CallbackStops(Act(l, script[0]), script[1..]); }
    }
  }

  /** No callback numbered from `i` up to `n` calls `stop_loop`. */
  ghost predicate NoneStops(scripts: seq<seq<Action>>, i: nat, n: nat) {
    forall k: nat | i <= k < n :: !CallsStop(Script(scripts, k))
  }

  lemma {:induction false} BatchStops(l: Loop, scripts: seq<seq<Action>>)
    ensures |l.ran| <= |RunBatch(l, scripts).ran|
    ensures RunBatch(l, scripts).run <==> l.run && NoneStops(scripts, |l.ran|, |RunBatch(l, scripts).ran|)
    decreases |l.batch|
  {
    if l.batch != [] {
      var script := Script(scripts, |l.ran|);
      var r := Invoke(l, script);
      if l.batch[0] !in l.cancelled {
        CallbackStops(l.(batch := l.batch[1..], ran := l.ran + [Call(l.batch[0], l.now)]), script);
      }
      BatchStops(r, scripts);
    }
  }

  lemma {:induction false} IOStops(l: Loop, io: seq<seq<Action>>)
    ensures RunIO(l, io).run <==> l.run && forall script <- io :: !CallsStop(script)
    decreases |io|
  {
    if io != [] {
      CallbackStops(l, io[0]);
      IOStops(Acts(l, io[0]), io[1..]);
      assert io == [io[0]] + io[1..];
    }
  }

  /**
   One round of a running loop: it is still running if and only if none of its callbacks, of those that
   are called and not skipped, has called `stop_loop`.
   */
  lemma RoundStops(l: Loop, e: StepEnv, next: Option<real>)
    ensures var r := RunStep(l, e, next);
      r.run <==>
        && l.run && !CallsStop(e.select) && (forall script <- e.io :: !CallsStop(script))
        && NoneStops(e.scripts, |l.ran|, |r.ran|)
  {
    var l1, l2, l3 := BeforeSelect(l, e), AfterSelect(l, e, next), BeforeLate(l, e, next);
    CallbackStops(l1.(waits := l1.waits + [Wait(l1, next)]), e.select);
    BatchStops(l2, e.scripts);
    IOStops(RunBatch(l2, e.scripts), e.io);
    IOKeepsRan(RunBatch(l2, e.scripts), e.io);
    BatchStops(PopPending(l3, DueTime(l2)), e.scripts);
  }

  lemma {:induction false} IOKeepsRan(l: Loop, io: seq<seq<Action>>)
    ensures RunIO(l, io).ran == l.ran && RunIO(l, io).waits == l.waits
    decreases |io|
  {
    if io != [] { IOKeepsRan(Acts(l, io[0]), io[1..]); }
  }

  /**
   From a round in which a callback calls `stop_loop`: the runner stays stopped, and after at most as many
   quiet rounds as there are live handles then, the condition of `run_loop` fails.
   */
  lemma StopLoopLeadsOut(l: Loop, e: StepEnv, next: Option<real>, n: nat, rounds: seq<Round>)
    requires AtBoundary(l) && |l.ran| <= n < |RunStep(l, e, next).ran| && CallsStop(Script(e.scripts, n))
    requires Draining(RunStep(l, e, next), rounds)
    ensures var r := AfterRun(RunStep(l, e, next), rounds);
      && !r.run && |rounds| + ItemsNum(r) <= ItemsNum(RunStep(l, e, next))
      && (|rounds| >= ItemsNum(RunStep(l, e, next)) ==> !(r.run || ItemsNum(r) > 0))
  {
    RoundStops(l, e, next);
    StepKeepsInv(l, e, next);
    StoppedRunnerDrains(RunStep(l, e, next), rounds);
  }

  /** The k-th moment enters `run_loop`, and no later one calls `stop_loop`. */
  ghost predicate EntersLast(ms: seq<Moment>, k: nat) {
    k < |ms| && ms[k] == Enters && Does(Stop) !in ms[k + 1..]
  }

  /** At any moment of a life: the flag is set if and only if `run_loop` was entered and not stopped since. */
  lemma {:induction false} FlagTellsWhetherStopped(l: Loop, ms: seq<Moment>)
    requires !l.run
    ensures Thens(l, ms).run <==> exists k: nat :: EntersLast(ms, k)
  {
    if ms != [] {
      var n, before := |ms| - 1, ms[..|ms| - 1];
      FlagTellsWhetherStopped(l, before);
      assert ms[n] == Enters ==> EntersLast(ms, n);
      forall k: nat | k < n ensures EntersLast(ms, k) <==> EntersLast(before, k) && ms[n] != Does(Stop) {
        assert ms[k + 1..] == before[k + 1..] + [ms[n]];
      }
    }
  }

  // ---------- How long select waits ----------

  /** The handle is live, and is ready or due at `t`. */
  ghost predicate DueNow(l: Loop, h: nat, t: real) {
    IsLive(l, h) && DueBy(l.whens, h, t)
  }

  lemma EarlyBatch(l: Loop, t: real, h: nat)
    requires AtBoundary(l)
    ensures h in PopPending(l, t).batch <==> DueNow(l, h, t)
  {
    PopKeepsLive(l, t, h);
    LiveIn(Popped(l, t), l.cancelled);
    LiveIn(Waiting(l), l.cancelled);
    PoppedIds(l, t);
    InItems(Later(l.timed, t), h);
    InItems(l.timed, h);
    DueAndLater(l.timed, t);
  }

  /** The clock after `d`; it does not go back. */
  function Passed(now: real, d: real): real {
    if d < 0.0 then now else now + d
  }

  /** When the step reads the clock for the first time, counting the resolution in. */
  function FirstDue(l: Loop, e: StepEnv): real {
    Passed(l.now, e.idle) + l.resolution
  }

  /** When `select` is called. */
  function SelectTime(l: Loop, e: StepEnv): real {
    Passed(Passed(l.now, e.idle), e.pause)
  }

  lemma BeforeSelectBatch(l: Loop, e: StepEnv, h: nat)
    requires AtBoundary(l)
    ensures h in BeforeSelect(l, e).batch <==> DueNow(l, h, FirstDue(l, e))
    ensures BeforeSelect(l, e).now == SelectTime(l, e)
    ensures forall tm <- BeforeSelect(l, e).timed :: tm in l.timed
    ensures BeforeSelect(l, e).cancelled == l.cancelled && BeforeSelect(l, e).waits == l.waits
  {
    var l0 := Ticked(l, e.idle);
    TimePasses(l, e.idle);
    EarlyBatch(l0, DueTime(l0), h);
    TickKeepsLive(l, e.idle, h);
    DueAndLater(l0.timed, DueTime(l0));
  }

  lemma {:induction false} BatchKeepsWaits(l: Loop, scripts: seq<seq<Action>>)
    ensures RunBatch(l, scripts).waits == l.waits
    decreases |l.batch|
  {
    if l.batch != [] { BatchKeepsWaits(Invoke(l, Script(scripts, |l.ran|)), scripts); }
  }

  lemma OneWaitInStep(l: Loop, e: StepEnv, next: Option<real>)
    ensures RunStep(l, e, next).waits == BeforeSelect(l, e).waits + [Wait(BeforeSelect(l, e), next)]
  {
    var l2, l3 := AfterSelect(l, e, next), BeforeLate(l, e, next);
    BatchKeepsWaits(l2, e.scripts);
    IOKeepsRan(RunBatch(l2, e.scripts), e.io);
    BatchKeepsWaits(PopPending(l3, DueTime(l2)), e.scripts);
  }

  /** `wait` ends when the live timer `tm` is due, and at once if it is already due. */
  predicate EndsAt(now: real, wait: real, when: real) {
    wait >= 0.0 && if when <= now then wait == 0.0 else now + wait == when
  }

  /** The live timer that `next_event` has named. */
  ghost predicate Names(l: Loop, next: Option<real>, tm: Timer<nat>) {
    tm in l.timed && tm.item !in l.cancelled && next == Some(tm.when)
  }

  /**
   Each step calls `select` once. With a live handle that is ready, or due when the step begins, it does not
   wait. Otherwise it waits up to the time of the live timer that `next_event` has named, and for ever
   if no live handle is left.
   */
  lemma SelectWaitsForTheNextTimer(l: Loop, e: StepEnv, next: Option<real>)
    requires AtBoundary(l) && NextEvent(BeforeSelect(l, e), next)
    ensures var r, n := RunStep(l, e, next), |l.waits|;
      && |r.waits| == n + 1 && r.waits[..n] == l.waits
      && ((exists h: nat :: DueNow(l, h, FirstDue(l, e))) ==> r.waits[n] == Some(0.0))
      && ((forall h: nat :: !DueNow(l, h, FirstDue(l, e))) && ItemsNum(l) > 0 ==>
            && r.waits[n].Some?
            && exists tm :: Names(l, next, tm) && EndsAt(SelectTime(l, e), r.waits[n].value, tm.when))
      && (r.waits[n] == None <==> ItemsNum(l) == 0)
  {
    var l1 := BeforeSelect(l, e);
    OneWaitInStep(l, e, next);
    PollsForeverOnlyWhenIdle(l, e, next);
    BeforeSelectBatch(l, e, 0);
    if h: nat :| DueNow(l, h, FirstDue(l, e)) {
      BeforeSelectBatch(l, e, h);
    } else if ItemsNum(l) > 0 {
      if l1.batch != [] { BeforeSelectBatch(l, e, l1.batch[0]); }
      var h := LiveTimer(l1, next);
      assert Names(l, next, Timer(next.value, h));
    }
  }

  /** No live timer is earlier. */
  ghost predicate IsLeast(l: Loop, when: real) {
    forall tm <- l.timed | tm.item !in l.cancelled :: when <= tm.when
  }

  /** If the answer of `next_event` is the least live time, no live timer is due before `select` returns by itself. */
  lemma SelectDoesNotOversleep(l: Loop, e: StepEnv, next: Option<real>, tm: Timer<nat>)
    requires AtBoundary(l) && NextEvent(BeforeSelect(l, e), next)
    requires next.Some? && IsLeast(BeforeSelect(l, e), next.value)
    requires tm in BeforeSelect(l, e).timed && tm.item !in l.cancelled
    ensures |RunStep(l, e, next).waits| == |l.waits| + 1
    ensures var wait := RunStep(l, e, next).waits[|l.waits|];
      wait.Some? && (wait.value > 0.0 ==> SelectTime(l, e) + wait.value <= tm.when)
  {
    SelectWaitsForTheNextTimer(l, e, next);
    BeforeSelectBatch(l, e, tm.item);
    InItems(l.timed, tm.item);
    LiveIn(Waiting(l), l.cancelled);
    assert IsLive(l, tm.item);
  }

  // ---------- The condition of run_loop ----------

  /** Each round of `run_loop` is made because the flag was set or a live handle was left. */
  lemma {:induction false} RoundsAreNeeded(l: Loop, rounds: seq<Round>, k: nat)
    requires IsRun(l, rounds) && k < |rounds|
    ensures AfterRun(l, rounds[..k]).run || ItemsNum(AfterRun(l, rounds[..k])) > 0
    decreases k
  {
    if k > 0 {
      assert rounds[..k][1..] == rounds[1..][..k - 1];
      RoundsAreNeeded(RunStep(l, rounds[0].env, rounds[0].next), rounds[1..], k - 1);
    }
  }
}
