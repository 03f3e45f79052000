/**
 aio/loop/pure/impl.py: the event loop over handle objects, a scheduler and a clock. Every method is
 proved to do what LoopMachine says; `model` is the state that the objects stand for.
 */
module EventLoop {
  import opened Wrappers
  import opened StableQueue
  import opened Scheduler
  import M = LoopMachine
  import LoopRuns
  import LoopTimes

  function IdOf(h: Handle): nat {
    h.id
  }

  function Ids(hs: seq<Handle>): (r: seq<nat>)
    ensures |r| == |hs|
  {
    seq(|hs|, i requires 0 <= i < |hs| => hs[i].id)
  }

  lemma IdsTail(hs: seq<Handle>, k: nat)
    requires k < |hs|
    ensures Ids(hs[k..]) == [hs[k].id] + Ids(hs[k + 1..])
  {
  }

  lemma IdsOfItems(ts: seq<Timer<Handle>>)
    ensures Items(Map(IdOf, ts)) == Ids(Items(ts))
  {
    var a, b := Items(Map(IdOf, ts)), Ids(Items(ts));
    forall i | 0 <= i < |ts| ensures a[i] == b[i] {
      assert Map(IdOf, ts)[i].item == IdOf(ts[i].item);
    }
  }

  ghost predicate FlagsMatch(hs: seq<Handle>, cancelled: set<nat>)
    reads hs
  {
    forall h <- hs :: h.cancelled <==> h.id in cancelled
  }

  lemma {:induction false} IdsOfLive(hs: seq<Handle>, all: seq<Handle>, cancelled: set<nat>)
    requires FlagsMatch(all, cancelled) && forall h <- hs :: h in all
    ensures Ids(LiveOf(hs, CancelledOf(all))) == LiveOf(Ids(hs), cancelled)
    ensures forall h <- LiveOf(hs, CancelledOf(all)) :: h in hs
  {
    if hs != [] {
      var n := |hs| - 1;
      IdsOfLive(hs[..n], all, cancelled);
      assert Ids(hs)[..n] == Ids(hs[..n]);
    }
  }

  lemma IdsOfPopped(ready: seq<Handle>, timed: seq<Timer<Handle>>, t: real)
    ensures Ids(ready + Items(StableSort(Due(timed, t)))) == Ids(ready) + Items(StableSort(Due(Map(IdOf, timed), t)))
    ensures Map(IdOf, Later(timed, t)) == Later(Map(IdOf, timed), t)
  {
    DueMap(IdOf, timed, t);
    StableSortMap(IdOf, Due(timed, t));
    IdsOfItems(StableSort(Due(timed, t)));
  }

  // ---------- What the objects stand for ----------

  /** The handles and their times. */
  ghost predicate Numbered(issued: seq<Handle>, whens: seq<Option<real>>) {
    |issued| == |whens| && forall i | 0 <= i < |issued| :: issued[i].id == i && issued[i].when == whens[i]
  }

  ghost predicate ReadyMatch(ready: seq<Handle>, ids: seq<nat>, issued: seq<Handle>) {
    Ids(ready) == ids && forall h <- ready :: h in issued
  }

  ghost predicate TimedMatch(timed: seq<Timer<Handle>>, ids: seq<Timer<nat>>, issued: seq<Handle>) {
    Map(IdOf, timed) == ids && forall tm <- timed :: tm.item in issued
  }

  /** The flags of the handles. */
  ghost predicate Flagged(issued: seq<Handle>, cancelled: set<nat>, executed: set<nat>)
    reads issued
  {
    && (forall h <- issued :: h.cancelled == (h.id in cancelled) && h.executed == (h.id in executed))
    && (forall i <- cancelled :: i < |issued|) && (forall i <- executed :: i < |issued|)
  }

  ghost function Created(l: M.Loop, when: Option<real>): M.Loop {
    match when
    case None => l.(whens := l.whens + [None], ready := l.ready + [|l.whens|])
    case Some(w) => l.(whens := l.whens + [Some(w)], timed := l.timed + [Timer(w, |l.whens|)])
  }

  lemma ReadyMatchNew(ready: seq<Handle>, ids: seq<nat>, issued: seq<Handle>, handle: Handle)
    requires ReadyMatch(ready, ids, issued)
    ensures ReadyMatch(ready, ids, issued + [handle])
    ensures ReadyMatch(ready + [handle], ids + [handle.id], issued + [handle])
  {
    assert Ids(ready + [handle]) == Ids(ready) + [handle.id];
  }

  lemma TimedMatchNew(timed: seq<Timer<Handle>>, ids: seq<Timer<nat>>, issued: seq<Handle>, tm: Timer<Handle>)
    requires TimedMatch(timed, ids, issued)
    ensures TimedMatch(timed, ids, issued + [tm.item])
    ensures TimedMatch(timed + [tm], ids + [Timer(tm.when, tm.item.id)], issued + [tm.item])
  {
    var a, b := Map(IdOf, timed + [tm]), Map(IdOf, timed) + [Timer(tm.when, tm.item.id)];
    forall i | 0 <= i < |a| ensures a[i] == b[i] {}
  }

  lemma PoppedMatch(ready: seq<Handle>, readyIds: seq<nat>, timed: seq<Timer<Handle>>, timedIds: seq<Timer<nat>>,
                    issued: seq<Handle>, t: real)
    requires ReadyMatch(ready, readyIds, issued) && TimedMatch(timed, timedIds, issued)
    ensures ReadyMatch(ready + Items(StableSort(Due(timed, t))), readyIds + Items(StableSort(Due(timedIds, t))), issued)
    ensures TimedMatch(Later(timed, t), Later(timedIds, t), issued)
  {
    var sorted := StableSort(Due(timed, t));
    StableSortSorts(Due(timed, t));
    SplitIsSubset(timed, t);
    forall i | 0 <= i < |sorted| ensures sorted[i].item in issued {
      assert sorted[i] in multiset(sorted);
    }
    IdsOfPopped(ready, timed, t);
  }

  lemma LiveMatch(popped: seq<Handle>, ids: seq<nat>, issued: seq<Handle>, cancelled: set<nat>, executed: set<nat>)
    requires ReadyMatch(popped, ids, issued) && Flagged(issued, cancelled, executed)
    ensures ReadyMatch(LiveOf(popped, CancelledOf(popped)), LiveOf(ids, cancelled), issued)
  {
    IdsOfLive(popped, popped, cancelled);
  }

  lemma HandlesMatch(ready: seq<Handle>, readyIds: seq<nat>, timed: seq<Timer<Handle>>, timedIds: seq<Timer<nat>>,
                     issued: seq<Handle>)
    requires ReadyMatch(ready, readyIds, issued) && TimedMatch(timed, timedIds, issued)
    ensures ReadyMatch(ready + Items(timed), readyIds + Items(timedIds), issued)
  {
    IdsOfItems(timed);
    forall i | 0 <= i < |timed| ensures timed[i].item in issued {
      assert timed[i] in timed;
    }
  }

  lemma NextEventMatches(l: M.Loop, timed: seq<Timer<Handle>>, issued: seq<Handle>, next: Option<real>)
    requires TimedMatch(timed, l.timed, issued) && Flagged(issued, l.cancelled, l.executed)
    requires next == None ==> forall tm <- timed :: tm.item.cancelled
    requires next.Some? ==> exists tm <- timed :: !tm.item.cancelled && tm.when == next.value
    ensures M.NextEvent(l, next)
  {
    match next
    case None =>
      forall tm | tm in l.timed ensures tm.item in l.cancelled {
        var i :| 0 <= i < |timed| && l.timed[i] == tm;
        assert l.timed[i].item == IdOf(timed[i].item) && timed[i] in timed;
      }
    case Some(w) =>
      var tm :| tm in timed && !tm.item.cancelled && tm.when == w;
      var i :| 0 <= i < |timed| && timed[i] == tm;
      assert l.timed[i] == Timer(w, IdOf(tm.item));
      assert l.timed[i] in l.timed;
  }

  lemma LeastMatches(l: M.Loop, timed: seq<Timer<Handle>>, issued: seq<Handle>, when: real)
    requires TimedMatch(timed, l.timed, issued) && Flagged(issued, l.cancelled, l.executed)
    ensures LoopTimes.IsLeast(l, when) <==> forall tm <- timed | !tm.item.cancelled :: when <= tm.when
  {
    if LoopTimes.IsLeast(l, when) {
      forall tm | tm in timed && !tm.item.cancelled ensures when <= tm.when {
        var i :| 0 <= i < |timed| && timed[i] == tm;
        assert l.timed[i] == Timer(tm.when, IdOf(tm.item)) && l.timed[i] in l.timed;
      }
    }
    if forall tm <- timed | !tm.item.cancelled :: when <= tm.when {
      forall tm | tm in l.timed && tm.item !in l.cancelled ensures when <= tm.when {
        var i :| 0 <= i < |timed| && l.timed[i] == tm;
        assert tm.item == IdOf(timed[i].item) && timed[i] in timed;
      }
    }
  }

  datatype Outcome = AlreadyRunning | LoopStopped | StillRunning

  class EventLoop {
    const scheduler: Scheduler
    const resolution: real
    var now: real               // the clock
    var issued: seq<Handle>     // the handles that call_soon and call_later have returned
    var calls: nat              // the number of handles invoked
    var run: bool               // `_run` of the loop's runner
    ghost var model: M.Loop
    ghost var repr: set<object>

    ghost predicate Valid()
      reads this, repr
    {
      && this in repr && scheduler in repr && scheduler.queue in repr && (forall h <- issued :: h in repr)
      && scheduler.Valid()
      && Numbered(issued, model.whens)
      && ReadyMatch(scheduler.queue.minPriority, model.ready, issued)
      && TimedMatch(scheduler.queue.Timed(), model.timed, issued)
      && Flagged(issued, model.cancelled, model.executed)
      && now == model.now && resolution == model.resolution && run == model.run && calls == |model.ran|
    }

    constructor (now: real, resolution: real)
      ensures Valid() && fresh(repr) && model == M.Fresh(now, resolution)
      ensures resolution >= 0.0 ==> LoopRuns.Reachable(model)
    {
      var queue := new PriorityQueue<Handle>([], []);
      scheduler := new Scheduler(queue);
      this.now, this.resolution, issued, calls, run := now, resolution, [], 0, false;
      model := M.Fresh(now, resolution);
      repr := {this, scheduler, queue};
      new;
      if resolution >= 0.0 { LoopRuns.FreshIsReachable(now, resolution); }
    }

    /** Creates a handle and puts it into the scheduler. */
    method Create(when: Option<real>) returns (handle: Handle)
      requires Valid()
      modifies repr
      ensures Valid() && fresh(repr - old(repr)) && issued == old(issued) + [handle]
      ensures handle.when == when && handle.id == |old(issued)| && model == Created(old(model), when)
    {
      handle := new Handle(|issued|, when);
      ReadyMatchNew(scheduler.queue.minPriority, model.ready, issued, handle);
      ghost var tm := Timer(if when.Some? then when.value else 0.0, handle);
      TimedMatchNew(scheduler.queue.Timed(), model.timed, issued, tm);
      scheduler.Enqueue(handle);
      issued := issued + [handle];
      repr := repr + {handle};
      model := Created(model, when);
    }

    method CallSoon() returns (handle: Handle)
      requires Valid()
      modifies repr
      ensures Valid() && fresh(repr - old(repr)) && issued == old(issued) + [handle]
      ensures handle.when == None && handle.id == |old(issued)| && model == M.CallSoon(old(model))
      ensures model == old(model).(whens := model.whens, ready := old(model).ready + [handle.id])
    {
      handle := Create(None);
    }

    method CallLater(timeout: real) returns (handle: Handle)
      requires Valid()
      modifies repr
      ensures Valid() && fresh(repr - old(repr)) && issued == old(issued) + [handle]
      ensures handle.when == if timeout == 0.0 then None else Some(old(now) + timeout)
      ensures model.whens == old(model).whens + [handle.when] && model == M.CallLater(old(model), timeout)
      ensures timeout == 0.0 ==>
        model == old(model).(whens := model.whens, ready := old(model).ready + [handle.id])
      ensures timeout != 0.0 ==>
        model == old(model).(whens := model.whens, timed := old(model).timed + [Timer(old(now) + timeout, handle.id)])
    {
      if timeout == 0.0 {
        handle := CallSoon();
      } else {
        var callAt := now + timeout;
        handle := Create(Some(callAt));
      }
    }

    /** One action of a callback; `raised` when it is an exception. */
    method Perform(a: M.Action) returns (raised: bool)
      requires Valid()
      modifies repr
      ensures Valid() && fresh(repr - old(repr)) && old(issued) <= issued
      ensures model == M.Act(old(model), a) && raised == a.Fail?
    {
      raised := a.Fail?;
      match a
      case Soon =>
        var _ := CallSoon();
      case After(timeout) =>
        var _ := CallLater(timeout);
      case CancelHandle(h) =>
        if h < |issued| {
          issued[h].Cancel();
          model := model.(cancelled := model.cancelled + {h});
        }
      case Tick(d) =>
        now := now + M.Max(d, 0.0);
        model := M.Ticked(model, d);
      case Stop =>
        StopLoop();
      case Fail =>
    }

    /** A callback runs up to its first exception, which the loop reports and swallows. */
    method Callback(script: seq<M.Action>)
      requires Valid()
      modifies repr
      ensures Valid() && fresh(repr - old(repr)) && old(issued) <= issued
      ensures model == M.Acts(old(model), script)
      ensures LoopRuns.Reachable(old(model)) ==> LoopRuns.Reachable(model)
    {
      ghost var start := model;
      if LoopRuns.Reachable(start) { LoopRuns.ReachableRuns(start, script, [], [], start); }
      for k := 0 to |script|
        invariant Valid() && fresh(repr - old(repr)) && old(issued) <= issued
        invariant M.Acts(model, script[k..]) == M.Acts(old(model), script)
      {
        var raised := Perform(script[k]);
        if raised {
          return;
        }
      }
    }

    method MarkExecuted(handle: Handle)
      requires Valid() && handle in issued
      modifies this`model, handle`executed
      ensures Valid() && model == old(model).(executed := old(model).executed + {handle.id})
    {
      handle.executed := true;
      model := model.(executed := model.executed + {handle.id});
    }

    /** `_invoke_handle`, for the next handle of the batch */
    method InvokeHandle(handle: Handle, scripts: seq<seq<M.Action>>)
      requires Valid() && handle in issued && model.batch != [] && model.batch[0] == handle.id
      modifies repr
      ensures Valid() && fresh(repr - old(repr)) && old(issued) <= issued
      ensures model == M.Invoke(old(model), M.Script(scripts, |old(model).ran|))
    {
      if handle.cancelled {
        model := model.(batch := model.batch[1..], dropped := model.dropped + [handle.id]);
        return;
      }
      var script := M.Script(scripts, calls);
      model := model.(batch := model.batch[1..], ran := model.ran + [M.Call(handle.id, now)]);
      calls := calls + 1;
      Callback(script);
      MarkExecuted(handle);
    }

    method InvokeAll(handles: seq<Handle>, scripts: seq<seq<M.Action>>)
      requires Valid() && Ids(handles) == model.batch && forall h <- handles :: h in issued
      modifies repr
      ensures Valid() && fresh(repr - old(repr)) && old(issued) <= issued
      ensures model == M.RunBatch(old(model), scripts)
    {
      ghost var result := M.RunBatch(model, scripts);
      assert handles[0..] == handles;
      for k := 0 to |handles|
        invariant Valid() && fresh(repr - old(repr)) && old(issued) <= issued
        invariant model.batch == Ids(handles[k..]) && M.RunBatch(model, scripts) == result
      {
        IdsTail(handles, k);
        assert handles[k] in handles && handles[k] in issued;
        InvokeHandle(handles[k], scripts);
      }
    }

    method PopPending(t: real) returns (handles: seq<Handle>)
      requires Valid()
      modifies this`model, scheduler.queue
      ensures Valid() && model == M.PopPending(old(model), t)
      ensures Ids(handles) == model.batch && forall h <- handles :: h in issued
    {
      PoppedMatch(scheduler.queue.minPriority, model.ready, scheduler.queue.Timed(), model.timed, issued, t);
      ghost var popped;
      handles, popped := scheduler.PopPending(t);
      LiveMatch(popped, M.Popped(model, t), issued, model.cancelled, model.executed);
      model := M.PopPending(model, t);
    }

    method ItemsNum() returns (n: nat)
      requires Valid()
      ensures n == M.ItemsNum(model)
    {
      n := scheduler.ItemsNum();
      HandlesMatch(scheduler.queue.minPriority, model.ready, scheduler.queue.Timed(), model.timed, issued);
      LiveMatch(scheduler.Handles(), M.Waiting(model), issued, model.cancelled, model.executed);
    }

    /** The answer is the least live time exactly when the heap shows it first. */
    ghost predicate ExactAnswer(next: Option<real>)
      reads this, repr
      requires Valid()
    {
      next.Some? ==>
        (LoopTimes.IsLeast(model, next.value)
         <==> FirstExposedIsEarliest(scheduler.queue.prioritized, CancelledOf(scheduler.Handles())))
    }

    method NextEvent() returns (next: Option<real>)
      requires Valid()
      ensures M.NextEvent(model, next)
      ensures ExactAnswer(next)
    {
      next := scheduler.NextEvent();
      NextEventMatches(model, scheduler.queue.Timed(), issued, next);
      if next.Some? { LeastMatches(model, scheduler.queue.Timed(), issued, next.value); }
    }

    /** A reading of the clock, plus its resolution */
    method DueTime() returns (t: real)
      requires Valid()
      ensures t == M.DueTime(model)
    {
      t := now + resolution;
    }

    /** Time passes between two actions of the loop. */
    method Pass(d: real)
      requires Valid()
      modifies this`now, this`model
      ensures Valid() && model == M.Ticked(old(model), d)
    {
      now := now + M.Max(d, 0.0);
      model := M.Ticked(model, d);
    }

    method PopEarly(e: M.StepEnv) returns (early: seq<Handle>)
      requires Valid()
      modifies this`now, this`model, scheduler.queue
      ensures Valid() && model == M.PopEarly(old(model), e)
      ensures Ids(early) == model.batch && forall h <- early :: h in issued
    {
      Pass(e.idle);
      var dueTime := DueTime();
      early := PopPending(dueTime);
    }

    /** The timeout for `select` */
    method WaitEvents(hasEarly: bool, nextEventAt: Option<real>) returns (waitEvents: Option<real>)
      requires Valid() && hasEarly == (model.batch != [])
      ensures waitEvents == M.Wait(model, nextEventAt)
      ensures hasEarly ==> waitEvents == Some(0.0)
      ensures !hasEarly && nextEventAt.Some? ==>
        waitEvents.Some? && LoopTimes.EndsAt(now, waitEvents.value, nextEventAt.value)
    {
      if hasEarly {
        waitEvents := Some(0.0);
      } else if nextEventAt == None {
        waitEvents := None;
      } else {
        var wait := nextEventAt.value - now;
        waitEvents := Some(if wait < 0.0 then 0.0 else wait);
      }
    }

    /** The early callbacks, and the timeout for `select`. */
    method BeginStep(e: M.StepEnv) returns (early: seq<Handle>, waitEvents: Option<real>, ghost next: Option<real>)
      requires Valid()
      modifies this`now, this`model, scheduler.queue
      ensures Valid() && model == M.BeforeSelect(old(model), e)
      ensures M.NextEvent(model, next) && waitEvents == M.Wait(model, next)
      ensures Ids(early) == model.batch && forall h <- early :: h in issued
    {
      early := PopEarly(e);
      var nextEventAt := NextEvent();
      next := nextEventAt;
      Pass(e.pause);
      waitEvents := WaitEvents(|early| > 0, nextEventAt);
    }

    method Select(timeout: Option<real>, script: seq<M.Action>)
      requires Valid()
      modifies repr
      ensures Valid() && fresh(repr - old(repr)) && old(issued) <= issued
      ensures model == M.Acts(old(model).(waits := old(model).waits + [timeout]), script)
    {
      model := model.(waits := model.waits + [timeout]);
      Callback(script);
    }

    method InvokeIO(io: seq<seq<M.Action>>)
      requires Valid()
      modifies repr
      ensures Valid() && fresh(repr - old(repr)) && old(issued) <= issued
      ensures model == M.RunIO(old(model), io)
    {
      for k := 0 to |io|
        invariant Valid() && fresh(repr - old(repr)) && old(issued) <= issued
        invariant M.RunIO(model, io[k..]) == M.RunIO(old(model), io)
      {
        Callback(io[k]);
      }
    }

    /** The step up to the end of `select`. */
    method AwaitIO(e: M.StepEnv) returns (early: seq<Handle>, ghost next: Option<real>)
      requires Valid()
      modifies repr
      ensures Valid() && fresh(repr - old(repr)) && old(issued) <= issued
      ensures M.NextEvent(M.BeforeSelect(old(model), e), next) && model == M.AfterSelect(old(model), e, next)
      ensures Ids(early) == model.batch && forall h <- early :: h in issued
    {
      var waitEvents;
      early, waitEvents, next := BeginStep(e);
      Select(waitEvents, e.select);
    }

    method InvokeEarly(early: seq<Handle>, e: M.StepEnv)
      requires Valid() && Ids(early) == model.batch && forall h <- early :: h in issued
      modifies repr
      ensures Valid() && fresh(repr - old(repr)) && old(issued) <= issued
      ensures model == M.RunIO(M.RunBatch(old(model), e.scripts), e.io)
    {
      InvokeAll(early, e.scripts);
      InvokeIO(e.io);
    }

    /** The step up to its late callbacks, and the time that decides which those are. */
    method RunEarly(e: M.StepEnv) returns (endAt: real, ghost next: Option<real>)
      requires Valid()
      modifies repr
      ensures Valid() && fresh(repr - old(repr)) && old(issued) <= issued
      ensures M.NextEvent(M.BeforeSelect(old(model), e), next)
      ensures model == M.BeforeLate(old(model), e, next) && endAt == M.DueTime(M.AfterSelect(old(model), e, next))
    {
      var early;
      early, next := AwaitIO(e);
      endAt := DueTime();
      InvokeEarly(early, e);
    }

    method RunLate(endAt: real, scripts: seq<seq<M.Action>>)
      requires Valid()
      modifies repr
      ensures Valid() && fresh(repr - old(repr)) && old(issued) <= issued
      ensures model == M.RunLate(old(model), endAt, scripts)
    {
      var late := PopPending(endAt);
      InvokeAll(late, scripts);
    }

    /** `run_step` */
    method RunStep(e: M.StepEnv) returns (ghost next: Option<real>)
      requires Valid()
      modifies repr
      ensures Valid() && fresh(repr - old(repr)) && old(issued) <= issued
      ensures M.NextEvent(M.BeforeSelect(old(model), e), next) && model == M.RunStep(old(model), e, next)
    {
      var endAt;
      endAt, next := RunEarly(e);
      RunLate(endAt, e.scripts);
    }

    /** The body of the loop in `run_loop`, and the number that its condition needs. */
    method RunRound(e: M.StepEnv, ghost start: M.Loop, ghost envs: seq<M.StepEnv>, ghost before: seq<M.Round>)
      returns (itemsNum: nat, ghost rounds: seq<M.Round>)
      requires Valid() && |before| < |envs| && envs[|before|] == e
      requires M.Follows(start, envs[..|before|], before, model) && M.KeepsRunning(model)
      modifies repr
      ensures Valid() && fresh(repr - old(repr)) && itemsNum == M.ItemsNum(model)
      ensures |rounds| == |before| + 1 && M.Follows(start, envs[..|rounds|], rounds, model)
    {
      ghost var l := model;
      ghost var next := RunStep(e);
      itemsNum := ItemsNum();
      M.FollowsNext(start, envs, before, l, next);
      rounds := before + [M.Round(e, next)];
    }

    /** `run_loop`, up to the end of `envs`: what happens around its steps is known that far. */
    method RunLoop(envs: seq<M.StepEnv>) returns (outcome: Outcome, ghost rounds: seq<M.Round>)
      requires Valid()
      modifies repr
      ensures Valid() && fresh(repr - old(repr))
      ensures outcome == AlreadyRunning <==> old(run)
      ensures old(run) ==> model == old(model)
      ensures |rounds| <= |envs|
      ensures !old(run) ==> M.Follows(old(model).(run := true), envs[..|rounds|], rounds, model)
      ensures !old(run) ==> outcome == if model.run || M.ItemsNum(model) > 0 then StillRunning else LoopStopped
      ensures LoopRuns.Reachable(old(model)) ==> LoopRuns.Reachable(model)
      ensures outcome == StillRunning ==> |rounds| == |envs|
    {
      if run {
        return AlreadyRunning, [];
      }
      run := true;
      model := model.(run := true);
      outcome, rounds := LoopUntilStopped(envs);
      if LoopRuns.Reachable(old(model)) {
        LoopRuns.ReachableRuns(old(model), [], envs[..|rounds|], rounds, model);
      }
    }

    method LoopUntilStopped(envs: seq<M.StepEnv>) returns (outcome: Outcome, ghost rounds: seq<M.Round>)
      requires Valid()
      modifies repr
      ensures Valid() && fresh(repr - old(repr))
      ensures |rounds| <= |envs| && M.Follows(old(model), envs[..|rounds|], rounds, model)
      ensures outcome == if model.run || M.ItemsNum(model) > 0 then StillRunning else LoopStopped
      ensures outcome == StillRunning ==> |rounds| == |envs|
    {
      ghost var start := model;
      rounds := [];
      M.FollowsNone(model, envs);
      var k := 0;
      var itemsNum := ItemsNum();
      var keepsRunning := run || itemsNum > 0;
      while keepsRunning && k < |envs|
        invariant Valid() && fresh(repr - old(repr))
        invariant keepsRunning <==> model.run || M.ItemsNum(model) > 0
        invariant |rounds| == k <= |envs| && M.Follows(start, envs[..k], rounds, model)
      {
        itemsNum, rounds := RunRound(envs[k], start, envs, rounds);
        k := k + 1;
        keepsRunning := run || itemsNum > 0;
      }
      outcome := if keepsRunning then StillRunning else LoopStopped;
    }

    /** `stop_loop` */
    method StopLoop()
      requires Valid()
      modifies this`run, this`model
      ensures Valid() && !run && model == old(model).(run := false) && model == M.Act(old(model), M.Stop)
    {
      run := false;
      model := model.(run := false);
    }
  }
}
