/**
 aio/future/cimpl.c, the second implementation of futures and tasks: a future is a tagged union,
 a task adds a second one. Every method is proved to simulate the machine of FutureMachine, which
 the pure implementation refines too.
 */
module CRuntime {
  import opened Wrappers
  import opened FutureMachine
  import opened WakeUps
  import opened Reachability
  import opened CSimulation

  // enum CoroState, one bit each
  const CORO_CREATED: bv8 := 1
  const CORO_RUNNING: bv8 := 2
  const CORO_SUSPENDED: bv8 := 4
  const CORO_CLOSED: bv8 := 8

  function CoroBit(c: Coro): bv8 {
    match c
    case Fresh => CORO_CREATED
    case Executing => CORO_RUNNING
    case Suspended => CORO_SUSPENDED
    case Closed => CORO_CLOSED
    case NoCoro => 0
  }

  /** `_task_validate_can_go_to_state`, given the coroutine states that the new state expects. */
  function CanGo(c: Coro, expected: bv8): (r: bool)
    ensures expected == CORO_CREATED ==> (r <==> c == Fresh)
    ensures expected == CORO_SUSPENDED ==> (r <==> c == Suspended)
    ensures expected == CORO_SUSPENDED | CORO_CREATED ==> (r <==> c == Suspended || c == Fresh)
    ensures expected == CORO_CLOSED ==> (r <==> c == Closed)
  {
    CoroBit(c) & expected != 0
  }

  class Runtime {
    var objs: seq<Obj>
    var handles: seq<Handle>
    var cur: Option<HandleId>

    ghost predicate Simulates(p: Sys)
      reads this
    {
      Sim(p, objs, handles, cur)
    }

    constructor ()
      ensures Simulates(INIT)
    {
      objs, handles, cur := [], [], None;
    }

    method CallSoon(ghost p: Sys, tg: Target) returns (h: HandleId)
      requires Simulates(p)
      modifies this`handles
      ensures Simulates(Enqueue(p, tg)) && h == |old(handles)| && handles == old(handles) + [Handle(tg, false, false)]
    {
      h := |handles|;
      handles := handles + [Handle(tg, false, false)];
      SimEnqueue(p, tg, objs, old(handles), cur);
    }

    method CancelHandle(ghost p: Sys, h: HandleId)
      requires Simulates(p) && h < |handles|
      modifies this`handles
      ensures Simulates(CancelledHandle(p, h))
    {
      handles := handles[h := handles[h].(cancelled := true)];
      SimCancelHandle(p, h, objs, old(handles), cur);
    }

    /** The loop marks the handle it has called. */
    method HandleInvoked(ghost p: Sys)
      requires Simulates(p) && cur.Some? && cur.value < |handles|
      modifies this
      ensures Simulates(Leave(p)) && objs == old(objs)
    {
      handles := handles[cur.value := handles[cur.value].(executed := true)];
      cur := None;
      SimLeave(p, objs, old(handles));
    }

    /** `future_add_callback` */
    method AddCallback(ghost p: Sys, f: Id, cb: Cb) returns (r: Res)
      requires Simulates(p) && f < |objs|
      modifies this`objs
      ensures Simulates(FutureMachine.AddCallback(p, f, cb).0) && r == FutureMachine.AddCallback(p, f, cb).1
    {
      assert ObjSim(p, p.futs[f], objs[f]);
      match objs[f].super {
        case CPending(cbs) =>
          objs := objs[f := objs[f].(super := CPending(cbs + {cb}))];
          ghost var p' := FutureMachine.AddCallback(p, f, cb).0;
          assert ObjSim(p', p'.futs[f], objs[f]);
          SimWithOne(p, p', old(objs), objs, handles, handles, f);
          r := Ok;
        case CSuccess(_, _) => r := Raises(FutureFinished);
        case CFailed(_, _) => r := Raises(FutureFinished);
      }
    }

    /** `future_remove_callback` */
    method RemoveCallback(ghost p: Sys, f: Id, cb: Cb)
      requires Simulates(p) && f < |objs| && StateOk(p, f)
      requires cb.User? || (p.futs[f].st.Done() && cb in p.futs[f].st.sched)
      modifies this`objs, this`handles
      ensures Simulates(FutureMachine.RemoveCallback(p, f, cb))
    {
      assert ObjSim(p, p.futs[f], objs[f]);
      var schedCbs: map<Cb, HandleId>;
      match objs[f].super {
        case CPending(cbs) =>
          objs := objs[f := objs[f].(super := CPending(cbs - {cb}))];
          ghost var p' := FutureMachine.RemoveCallback(p, f, cb);
          assert ObjSim(p', p'.futs[f], objs[f]);
          SimWithOne(p, p', old(objs), objs, handles, handles, f);
          return;
        case CSuccess(_, sched) => schedCbs := sched;
        case CFailed(_, sched) => schedCbs := sched;
      }
      if cb !in schedCbs {
        return;
      }
      var handle := schedCbs[cb];
      objs := objs[f := objs[f].(super := objs[f].super.(sched := schedCbs - {cb}))];
      ghost var st := p.futs[f].st;
      ghost var p1 := WithState(p, f, st.(sched := st.sched - {cb}));
      assert ObjSim(p1, p1.futs[f], objs[f]);
      SimWithOne(p, p1, old(objs), objs, handles, handles, f);
      CancelHandle(p1, handle);
    }

    /** `_before_change_state` with `_schedule_callbacks`, and the change of the union's tag. */
    method SetFuture(ghost p: Sys, f: Id, out: Outcome, order: seq<Cb>) returns (r: Res)
      requires Simulates(p) && f < |objs| && objs[f].CFuture?
      requires !p.futs[f].st.Done() ==> Enumerates(order, p.futs[f].st.cbs)
      modifies this`objs, this`handles
      ensures if p.futs[f].st.Done() then Simulates(p) && r == Raises(FutureFinished)
              else Simulates(Finish(p, f, out, order)) && r == Ok
      ensures r == Ok ==> |objs| == |old(objs)| && SeenC(objs[f]) == Seen(finished, Some(out))
    {
      assert ObjSim(p, p.futs[f], objs[f]);
      if !objs[f].super.CPending? {
        return Raises(FutureFinished);
      }
      var scheduled := ScheduleCallbacks(f, order);
      objs := objs[f := CFuture(Tagged(out, scheduled))];
      SimFinish(p, f, out, order, old(objs), objs, old(handles), handles);
      return Ok;
    }

    /** The loop over the callback set in `_schedule_callbacks`. */
    method ScheduleCallbacks(f: Id, order: seq<Cb>) returns (scheduled: map<Cb, HandleId>)
      modifies this`handles
      ensures handles == old(handles) + Fired(order, f) && scheduled == SchedOf(order, |old(handles)|)
    {
      scheduled := map[];
      for k := 0 to |order|
        invariant handles == old(handles) + Fired(order[..k], f)
        invariant scheduled == SchedOf(order[..k], |old(handles)|)
      {
        scheduled := scheduled[order[k] := |handles|];
        handles := handles + [Handle(Callback(order[k], f), false, false)];
        assert order[..k + 1][..k] == order[..k];
        assert Fired(order[..k + 1], f) == Fired(order[..k], f) + [Handle(Callback(order[k], f), false, false)];
      }
      assert order[..|order|] == order;
    }

    /** `_task_result_delegate` */
    method SetTask(ghost p: Sys, t: Id, out: Outcome, order: seq<Cb>) returns (r: Res)
      requires Simulates(p) && t < |objs| && objs[t].CTask?
      requires !p.futs[t].st.Done() ==> Enumerates(order, p.futs[t].st.cbs)
      modifies this`objs, this`handles
      ensures if p.futs[t].coro != Closed then Simulates(p) && IsGuard(r)
              else if p.futs[t].st.Done() then Simulates(p) && r == Raises(FutureFinished)
              else Simulates(Finish(p, t, out, order)) && r == Ok
      ensures r == Ok ==> |objs| == |old(objs)| && SeenC(objs[t]) == Seen(finished, Some(out))
    {
      assert ObjSim(p, p.futs[t], objs[t]);
      var coro := objs[t].coro;
      if coro == Executing {
        return Raises(SelfCancelForbidden);
      }
      if coro != Closed && coro != Fresh {
        return Raises(CoroutineNotFinished);
      }
      if !CanGo(coro, CORO_CLOSED) {
        return Raises(BadCoroState);
      }
      if !objs[t].super.CPending? {
        return Raises(FutureFinished);
      }
      var scheduled := ScheduleCallbacks(t, order);
      objs := objs[t := CTask(Tagged(out, scheduled), TaskFutState, coro)];
      SimFinish(p, t, out, order, old(objs), objs, old(handles), handles);
      return Ok;
    }

    /** `_task_set_cancellation`. It checks the coroutine first, the pure task after it has asked for a step. */
    method SetCancellation(ghost p: Sys, t: Id, c: Exc) returns (r: Res)
      requires Simulates(p) && t < |objs| && objs[t].CTask? && !p.futs[t].st.Done() && !p.futs[t].st.Cancelling?
      modifies this`objs, this`handles
      ensures r == if CanGo(p.futs[t].coro, CORO_SUSPENDED | CORO_CREATED) then Ok else Raises(BadCoroState)
      ensures Simulates(if r == Ok then GoCancelling(p, t, c).0 else p) && r == GoCancelling(p, t, c).1
    {
      assert ObjSim(p, p.futs[t], objs[t]);
      if !CanGo(objs[t].coro, CORO_SUSPENDED | CORO_CREATED) {
        return Raises(BadCoroState);
      }
      var handle := CallSoon(p, Kick(t));
      ghost var p1 := Enqueue(p, Kick(t));
      assert ObjSim(p1, p1.futs[t], objs[t]);
      objs := objs[t := objs[t].(task := TaskCancelling(handle, c))];
      ghost var p' := GoCancelling(p, t, c).0;
      assert ObjSim(p', p'.futs[t], objs[t]);
      SimWithOne(p1, p', old(objs), objs, handles, handles, t);
      return Ok;
    }

    /** `cancel_future` of cimpl.py and `task_cancel` */
    method Cancel(ghost p: Sys, i: Id, c: Exc, order: seq<Cb>, ghost n: nat) returns (r: Res)
      requires Simulates(p) && Inv(p) && i < |objs| && Halts(p, i, n)
      requires EnumeratesIfPending(p, Leaf(p, i, n), order)
      modifies this`objs, this`handles
      decreases n
      ensures Leaf(p, i, n) < |p.futs|
      ensures Simulates(CancelLeaf(p, Leaf(p, i, n), c, order).0) && r == CancelLeaf(p, Leaf(p, i, n), c, order).1
    {
      LeafIsLast(p, i, n);
      WaitedStateOk(p, i);
      assert ObjSim(p, p.futs[i], objs[i]);
      if objs[i].CFuture? {
        r := SetFuture(p, i, Raised(c), order);
        return;
      }
      if objs[i].coro == Executing {
        return Raises(CancelledInCaller(c));
      }
      match objs[i].task {
        case TaskCreated =>
          r := SetCancellation(p, i, c);
        case TaskScheduled(handle) =>
          CancelHandle(p, handle);
          r := SetCancellation(CancelledHandle(p, handle), i, c);
        case TaskRunning(waitingOn) =>
          assert ObjSim(p, p.futs[waitingOn], objs[waitingOn]);
          if objs[waitingOn].super.CPending? {
            r := Cancel(p, waitingOn, c, order, n - 1);
          } else {
            if !CanGo(objs[i].coro, CORO_SUSPENDED | CORO_CREATED) {
              return Raises(BadCoroState);
            }
            RemoveCallback(p, waitingOn, StepOf(i));
            r := SetCancellation(FutureMachine.RemoveCallback(p, waitingOn, StepOf(i)), i, c);
          }
        case TaskCancelling(_, _) =>
          return Raises(AlreadyCancelling);
        case TaskFutState =>
          r := SetTask(p, i, Raised(c), order);
      }
    }

    /** `task_schedule` */
    method ScheduleFirstStep(ghost p: Sys, t: Id) returns (r: Res)
      requires Simulates(p) && Inv(p) && Enabled(p, Schedule(t))
      modifies this`objs, this`handles
      ensures Simulates(Next(p, Schedule(t))) && r == Step(p, Schedule(t)).1
    {
      assert ObjSim(p, p.futs[t], objs[t]);
      assert StateOk(p, t);
      if objs[t].task != TaskCreated {
        return Raises(NotNewlyCreated);
      }
      if !CanGo(objs[t].coro, CORO_CREATED) {
        return Raises(BadCoroState);
      }
      var handle := CallSoon(p, Kick(t));
      ghost var p1 := Enqueue(p, Kick(t));
      assert ObjSim(p1, p1.futs[t], objs[t]);
      objs := objs[t := objs[t].(task := TaskScheduled(handle))];
      ghost var p' := Next(p, Schedule(t));
      assert ObjSim(p', p'.futs[t], objs[t]);
      SimWithOne(p1, p', old(objs), objs, handles, handles, t);
      return Ok;
    }

    /** `task_step` up to the point where the coroutine runs */
    method Invoke(ghost p: Sys, h: HandleId) returns (r: Res)
      requires Simulates(p) && Inv(p) && Enabled(p, Begin(h))
      modifies this
      ensures Simulates(Next(p, Begin(h))) && r == CResult(p, Begin(h))
    {
      assert HandleOk(p, h) && HandleSim(p, h, handles[h]);
      cur := Some(h);
      ghost var p' := Next(p, Begin(h));
      var task := StepTarget(handles[h].target);
      if task == None {
        SimBegin(p, h, objs, objs, handles);
        return Ok;
      }
      var t := task.value;
      assert ObjSim(p, p.futs[t], objs[t]);
      WaitedStateOk(p, t);
      match objs[t].task {
        case TaskScheduled(_) => r := Resumes(FirstSend);
        case TaskRunning(w) =>
          // future_await_iter_next
          assert ObjSim(p, p.futs[w], objs[w]);
          match objs[w].super {
            case CPending(_) => r := Resumes(StillPending);
            case CSuccess(v, _) => r := Resumes(Gets(Unwrapped(v)));
            case CFailed(e, _) => r := Resumes(if e.StopIteration? then Gets(e.value) else GetsError(e));
          }
        case TaskCancelling(_, inner) => r := Resumes(Throws(inner));
        case TaskCreated => r := Raises(ResumedFinished);
        case TaskFutState => r := Raises(ResumedFinished);
      }
      objs := objs[t := objs[t].(coro := Executing)];
      SimBegin(p, h, old(objs), objs, handles);
    }

    /** `task_step` after the coroutine has yielded: the old callback is not taken back. */
    method Suspend(ghost p: Sys, t: Id, f: Id) returns (r: Res)
      requires Simulates(p) && Inv(p) && CurTask(p) == Some(t) && t < |objs| && f < |objs|
      modifies this
      ensures Simulates(YieldOn(p, t, f).0) && r == YieldOn(p, t, f).1
    {
      CurTaskExecutes(p, t);
      SimCleanUp(p, t, objs, handles);
      ghost var p0 := CleanUp(p, t);
      ghost var p1 := WithCoro(p0, t, Suspended);
      assert HandleOk(p, p.cur.value) && ObjSim(p, p.futs[t], objs[t]) && ObjSim(p0, p0.futs[t], objs[t]);
      objs := objs[t := objs[t].(coro := Suspended)];
      assert ObjSim(p1, p1.futs[t], objs[t]);
      SimWithOne(p0, p1, old(objs), objs, handles, handles, t);
      r := WaitOn(p1, t, f);
    }

    /** The checks of what was yielded, and the change to the running state. */
    method WaitOn(ghost p: Sys, t: Id, f: Id) returns (r: Res)
      requires Simulates(p) && t < |objs| && f < |objs| && p.futs[t].coro == Suspended && !p.futs[t].st.Done()
      requires cur.Some? && cur.value < |handles|
      modifies this
      ensures var (p', added) := FutureMachine.AddCallback(p, f, StepOf(t));
        if t == f then Simulates(Leave(p)) && r == Raises(AwaitsItself)
        else if added != Ok then Simulates(Leave(p')) && r == added
        else Simulates(Leave(WithState(p', t, Running(p'.futs[t].st.cbs, f)))) && r == Ok
    {
      assert ObjSim(p, p.futs[t], objs[t]);
      if !CanGo(objs[t].coro, CORO_SUSPENDED) {
        return Raises(BadCoroState);
      }
      if f == t {
        HandleInvoked(p);
        return Raises(AwaitsItself);
      }
      r := AddCallback(p, f, StepOf(t));
      ghost var p1 := FutureMachine.AddCallback(p, f, StepOf(t)).0;
      ghost var p2 := p1;
      if r == Ok {
        assert ObjSim(p1, p1.futs[t], objs[t]);
        ghost var before := objs;
        objs := objs[t := objs[t].(task := TaskRunning(f))];
        p2 := WithState(p1, t, Running(p1.futs[t].st.cbs, f));
        assert ObjSim(p2, p2.futs[t], objs[t]);
        SimWithOne(p1, p2, before, objs, handles, handles, t);
      }
      HandleInvoked(p2);
    }

    /** `task_step` after the coroutine has returned or raised */
    method FinishTask(ghost p: Sys, t: Id, out: Outcome, order: seq<Cb>) returns (r: Res)
      requires Simulates(p) && Inv(p) && CurTask(p) == Some(t) && t < |objs|
      requires !p.futs[t].st.Done() && Enumerates(order, p.futs[t].st.cbs)
      modifies this
      ensures Simulates(FinishStep(p, t, out, order).0) && r == FinishStep(p, t, out, order).1
    {
      assert ObjSim(p, p.futs[t], objs[t]);
      assert HandleOk(p, p.cur.value);
      objs := objs[t := objs[t].(coro := Closed)];
      ghost var p1 := WithCoro(p, t, Closed);
      assert ObjSim(p1, p1.futs[t], objs[t]);
      SimWithOne(p, p1, old(objs), objs, handles, handles, t);
      r := SetTask(p1, t, out, order);
      StepEnds(p, t, t, out, order);
      HandleInvoked(Finish(p1, t, out, order));
    }

    /** One label, beside the machine's. */
    method Do(ghost p: Sys, e: Label) returns (r: Res)
      requires Simulates(p) && Inv(p) && Acyclic(p) && Enabled(p, e)
      modifies this
      ensures Simulates(Next(p, e)) && r == CResult(p, e)
    {
      match e {
        case Begin(h) => r := Invoke(p, h);
        case SetResult(f, out, order) => r := SetPromiseResult(p, f, out, order);
        case EndYield(_) => r := EndHandle(p, e);
        case EndStep(_, _) => r := EndHandle(p, e);
        case EndCallback => r := EndHandle(p, e);
        case _ => r := Call(p, e);
      }
    }

    /** The loop leaves a handle. */
    method EndHandle(ghost p: Sys, e: Label) returns (r: Res)
      requires Simulates(p) && Inv(p) && Enabled(p, e) && (e.EndYield? || e.EndStep? || e.EndCallback?)
      modifies this
      ensures Simulates(Next(p, e)) && r == Step(p, e).1
    {
      if e.EndCallback? {
        HandleInvoked(p);
        return Ok;
      }
      assert HandleSim(p, cur.value, handles[cur.value]);
      var t := StepTarget(handles[cur.value].target).value;
      if e.EndYield? {
        r := Suspend(p, t, e.fut);
      } else {
        r := FinishTask(p, t, e.out, e.order);
      }
    }

    /** A call of the program. */
    method Call(ghost p: Sys, e: Label) returns (r: Res)
      requires Simulates(p) && Inv(p) && Acyclic(p) && Enabled(p, e)
      requires !e.Begin? && !e.SetResult? && !e.EndYield? && !e.EndStep? && !e.EndCallback?
      modifies this
      ensures Simulates(Next(p, e)) && r == Step(p, e).1
    {
      match e {
        case NewFuture => r := Create(p, e, CFuture(CPending({})));
        case NewTask => r := Create(p, e, CTask(CPending({}), TaskCreated, Fresh));
        case Schedule(t) => r := ScheduleFirstStep(p, t);
        case AddCb(f, k) => r := AddCallback(p, f, User(k));
        case RemoveCb(f, k) =>
          assert StateOk(p, f);
          RemoveCallback(p, f, User(k));
          r := Ok;
        case Cancel(f, c, order) => r := CancelAny(p, f, c, order);
        case CallSoon(k) =>
          var h := CallSoon(p, Plain(k));
          r := Ok;
        case CancelHandle(h) =>
          CancelHandle(p, h);
          r := Ok;
      }
    }

    method CancelAny(ghost p: Sys, f: Id, c: Exc, order: seq<Cb>) returns (r: Res)
      requires Simulates(p) && Inv(p) && Acyclic(p) && Enabled(p, Label.Cancel(f, c, order))
      modifies this`objs, this`handles
      ensures Simulates(Next(p, Label.Cancel(f, c, order))) && r == Step(p, Label.Cancel(f, c, order)).1
    {
      assert Halting(p, f);
      ghost var n: nat :| Halts(p, f, n) && LeafOf(p, f) == Leaf(p, f, n);
      LeafOfIsLast(p, f);
      r := Cancel(p, f, c, order, n);
    }

    method Create(ghost p: Sys, e: Label, o: Obj) returns (r: Res)
      requires Simulates(p) && Inv(p)
      requires e == NewFuture || e == NewTask
      requires o == if e == NewFuture then CFuture(CPending({})) else CTask(CPending({}), TaskCreated, Fresh)
      modifies this`objs
      ensures Simulates(Next(p, e)) && r == Ok
    {
      objs := objs + [o];
      ghost var p' := Next(p, e);
      forall j: Id | j < |objs| ensures ObjSim(p', p'.futs[j], objs[j]) {
        if j < |old(objs)| { ObjSimKept(p, p', p.futs[j], objs[j]); }
      }
      forall h: HandleId | h < |handles| ensures HandleSim(p', h, handles[h]) { assert HandleSim(p, h, handles[h]); }
      r := Ok;
    }

    /** `FuturePromise` of cimpl.py; a task has its setters replaced by `task_method_forbidden`. */
    method SetPromiseResult(ghost p: Sys, f: Id, out: Outcome, order: seq<Cb>) returns (r: Res)
      requires Simulates(p) && Inv(p) && Enabled(p, SetResult(f, out, order))
      modifies this`objs, this`handles
      ensures Simulates(Next(p, SetResult(f, out, order))) && r == CResult(p, SetResult(f, out, order))
    {
      assert ObjSim(p, p.futs[f], objs[f]) && StateOk(p, f);
      if out.Raised? && out.exc.Cancelled? {
        return Raises(UseCancelInstead);
      }
      if objs[f].CTask? {
        return Raises(ForbiddenForTask);
      }
      r := SetFuture(p, f, out, order);
    }

    /** One label, its result and what is to be seen afterwards. */
    method Record(ghost p: Sys, e: Label) returns (entry: (Res, Snapshot))
      requires Simulates(p) && Inv(p) && Acyclic(p) && Enabled(p, e)
      modifies this
      ensures Simulates(Next(p, e)) && entry == (CResult(p, e), PureSnapshot(Next(p, e)))
    {
      var r := Do(p, e);
      var snapshot := Observe(Next(p, e));
      entry := (r, snapshot);
    }

    /**
     Any run: after every label the C implementation has given the result that the machine gives,
     and shows the same states, the same outcomes and the same number of live step handles.
     */
    method Drive(ghost p: Sys, es: seq<Label>) returns (trace: seq<(Res, Snapshot)>)
      requires Simulates(p) && Inv(p) && Acyclic(p) && IsRun(p, es)
      modifies this
      ensures Simulates(After(p, es))
      ensures trace == CTrace(p, es)
    {
      trace := [];
      ghost var q := p;
      for k := 0 to |es|
        invariant Simulates(q) && Inv(q) && Acyclic(q)
        invariant IsRun(q, es[k..]) && After(q, es[k..]) == After(p, es)
        invariant trace + CTrace(q, es[k..]) == CTrace(p, es)
      {
        UnrollTrace(q, es, k);
        EveryStepGood(q, es[k]);
        StepAcyclic(q, es[k]);
        var entry := Record(q, es[k]);
        Appended(trace, entry, CTrace(Next(q, es[k]), es[k + 1..]));
        q := Next(q, es[k]);
        trace := trace + [entry];
      }
    }

    method Observe(ghost p: Sys) returns (s: Snapshot)
      requires Simulates(p)
      ensures s == PureSnapshot(p)
    {
      SimulationObserved(p, objs, handles, cur);
      s := Snapshot(seq(|objs|, i requires 0 <= i < |objs| reads this => SeenC(objs[i])), LiveSteps(handles, cur));
    }
  }
}
