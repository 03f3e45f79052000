/**
 The tagged unions of aio/future/cimpl.c, what a program can observe of them, and the relation that
 ties them to the machine of FutureMachine: related states cannot be told apart.
 */
module CSimulation {
  import opened Wrappers
  import opened FutureMachine
  import opened WakeUps
  import opened Reachability
  import opened Outcomes

  /** The union inside `Future`, tagged by `enum FutureState`. */
  datatype FutureData =
    | CPending(cbs: set<Cb>)
    | CSuccess(result: Val, sched: map<Cb, HandleId>)
    | CFailed(exc: Exc, sched: map<Cb, HandleId>)

  /** The union inside `Task`, tagged by `enum TaskState`. */
  datatype TaskData =
    | TaskFutState
    | TaskCreated
    | TaskScheduled(handle: HandleId)
    | TaskCancelling(handle: HandleId, inner: Exc)
    | TaskRunning(waitingOn: Id)

  datatype Obj = CFuture(super: FutureData) | CTask(super: FutureData, task: TaskData, coro: Coro)

  // ---------- What a program observes ----------

  datatype StateName = created | scheduled | running | cancelling | finished

  datatype Seen = Seen(name: StateName, out: Option<Outcome>)

  datatype Snapshot = Snapshot(futs: seq<Seen>, liveSteps: nat)

  function SeenPure(f: Fut): Seen {
    match f.st
    case Pending(_) => Seen(running, None)
    case Created(_) => Seen(created, None)
    case Scheduled(_, _) => Seen(scheduled, None)
    case Cancelling(_, _, _) => Seen(cancelling, None)
    case Running(_, _) => Seen(running, None)
    case Success(v, _) => Seen(finished, Some(Value(v)))
    case Failed(e, _) => Seen(finished, Some(Raised(e)))
  }

  /** `future_state_getter` with `future_result`. */
  function SeenFuture(d: FutureData): Seen {
    match d
    case CPending(_) => Seen(running, None)
    case CSuccess(v, _) => Seen(finished, Some(Value(v)))
    case CFailed(e, _) => Seen(finished, Some(Raised(e)))
  }

  /** `task_state_getter`. */
  function SeenC(o: Obj): Seen {
    match o
    case CFuture(d) => SeenFuture(d)
    case CTask(d, TaskCreated, _) => Seen(created, SeenFuture(d).out)
    case CTask(d, TaskScheduled(_), _) => Seen(scheduled, SeenFuture(d).out)
    case CTask(d, TaskCancelling(_, _), _) => Seen(cancelling, SeenFuture(d).out)
    case CTask(d, TaskRunning(_), _) => Seen(running, SeenFuture(d).out)
    case CTask(d, TaskFutState, _) => SeenFuture(d)
  }

  /** The number of handles that would step a task. */
  function LiveSteps(handles: seq<Handle>, cur: Option<HandleId>): nat {
    if handles == [] then 0
    else
      var h := |handles| - 1;
      LiveSteps(handles[..h], cur)
      + if StepsLive(handles[h], cur == Some(h)) then 1 else 0
  }

  /** A program sees a future finished with just what it holds. */
  lemma OutcomeIsSeen(s: Sys, f: Id, out: Outcome)
    requires f < |s.futs|
    ensures SeenPure(s.futs[f]).out == Some(out) <==> Holds(s, f, out)
    ensures SeenPure(s.futs[f]).name == finished <==> !Unfinished(s, f)
    ensures SeenPure(s.futs[f]).out.Some? <==> !Unfinished(s, f)
  {
  }

  /** The names that the labels lead to. */
  lemma NamesOfNew(s: Sys, t: Id)
    requires Reachable(s)
    ensures SeenPure(Next(s, NewFuture).futs[|s.futs|]) == Seen(running, None)
    ensures SeenPure(Next(s, NewTask).futs[|s.futs|]) == Seen(created, None)
    ensures Enabled(s, Schedule(t)) && Step(s, Schedule(t)).1 == Ok ==>
      SeenPure(Next(s, Schedule(t)).futs[t]) == Seen(scheduled, None)
  {
  }

  lemma NameOfWaiting(s: Sys, f: Id)
    requires Reachable(s) && Enabled(s, EndYield(f))
    ensures CurTask(s).value < |Next(s, EndYield(f)).futs|
    ensures SeenPure(Next(s, EndYield(f)).futs[CurTask(s).value]) == Seen(running, None)
  {
    YieldWaits(s, f);
  }

  lemma NameOfCancelled(s: Sys, e: Label, t: Id)
    requires Reachable(s) && Enabled(s, e) && Cancels(s, e, t) && t < |s.futs| && s.futs[t].coro != NoCoro
    ensures t < |Next(s, e).futs| && SeenPure(Next(s, e).futs[t]) == Seen(cancelling, None)
  {
    ReachableInv(s);
    CancelLeafShape(s, e, t);
  }

  predicate StepsLive(handle: Handle, isCurrent: bool) {
    !handle.cancelled && !handle.executed && !isCurrent && StepTarget(handle.target).Some?
  }

  /** The live handles that step a task. */
  ghost function StepHandles(handles: seq<Handle>, cur: Option<HandleId>): set<HandleId> {
    set h: HandleId | h < |handles| && StepsLive(handles[h], cur == Some(h))
  }

  lemma {:induction false} LiveStepsCounts(handles: seq<Handle>, cur: Option<HandleId>)
    ensures LiveSteps(handles, cur) == |StepHandles(handles, cur)|
  {
    if handles == [] {
      assert StepHandles(handles, cur) == {};
    } else {
      var h, before := |handles| - 1, handles[..|handles| - 1];
      LiveStepsCounts(before, cur);
      StepHandlesNext(handles, cur, h);
    }
  }

  lemma StepHandlesBefore(handles: seq<Handle>, cur: Option<HandleId>, h: HandleId, g: HandleId)
    requires |handles| == h + 1
    ensures g in StepHandles(handles[..h], cur) <==> g in StepHandles(handles, cur) && g != h
  {
    if g < h { assert handles[..h][g] == handles[g]; }
  }

  lemma StepHandlesNext(handles: seq<Handle>, cur: Option<HandleId>, h: HandleId)
    requires |handles| == h + 1
    ensures |StepHandles(handles, cur)| ==
            |StepHandles(handles[..h], cur)| + if StepsLive(handles[h], cur == Some(h)) then 1 else 0
  {
    var all, before := StepHandles(handles, cur), StepHandles(handles[..h], cur);
    forall g: HandleId ensures g in before <==> g in all && g != h { StepHandlesBefore(handles, cur, h, g); }
    assert before == all - {h};
  }

  /** A snapshot shows every future, and the number of live handles that step a task. */
  lemma SnapshotsAreExact(s: Sys)
    ensures |PureSnapshot(s).futs| == |s.futs|
    ensures forall i: Id | i < |s.futs| :: PureSnapshot(s).futs[i] == SeenPure(s.futs[i])
    ensures PureSnapshot(s).liveSteps ==
            |set h: HandleId | h < |s.handles| && Live(s, h) && StepTarget(s.handles[h].target).Some?|
  {
    LiveStepsCounts(s.handles, s.cur);
    assert StepHandles(s.handles, s.cur) ==
           set h: HandleId | h < |s.handles| && Live(s, h) && StepTarget(s.handles[h].target).Some?;
  }

  function PureSnapshot(s: Sys): Snapshot {
    Snapshot(seq(|s.futs|, i requires 0 <= i < |s.futs| => SeenPure(s.futs[i])), LiveSteps(s.handles, s.cur))
  }

  // ---------- Where the implementations differ ----------

  /**
   `PyErr_SetObject(PyExc_StopIteration, v)` as seen by the awaiting coroutine: a tuple is taken as
   the arguments of the StopIteration, and an instance of StopIteration as the exception itself.
   */
  function Unwrapped(v: Val): Val {
    match v
    case Tuple(items) => if items == [] then NoneValue else items[0]
    case StopIterationValue(value) => value
    case _ => v
  }

  /** What `future_await_iter_next` gives to the awaiting coroutine. */
  function CDelivery(d: FutureData): Delivery {
    match d
    case CSuccess(v, _) => Gets(Unwrapped(v))
    case CFailed(StopIteration(v), _) => Gets(v)
    case CFailed(e, _) => GetsError(e)
    case CPending(_) => StillPending
  }

  /** The two deliveries of an outcome are the same. */
  predicate DeliveredAlike(st: State) {
    match st
    case Success(v, _) => !v.Tuple? && !v.StopIterationValue?
    case Failed(e, _) => !e.StopIteration?
    case _ => true
  }

  function Data(st: State): FutureData {
    match st
    case Success(v, sched) => CSuccess(v, sched)
    case Failed(e, sched) => CFailed(e, sched)
    case _ => CPending(st.cbs)
  }

  /** Awaiting gives the same in both implementations exactly if no tuple and no StopIteration is involved. */
  lemma DeliveredAlikeExactly(st: State)
    ensures CDelivery(Data(st)) == OutcomeDelivery(st) <==> DeliveredAlike(st)
  {
    match st
    case Success(Tuple(items), _) =>
      if items != [] { assert items[0] < Tuple(items); }
    case Success(StopIterationValue(v), _) => assert v < StopIterationValue(v);
    case _ =>
  }

  /** A task was awaited that returned the pair (7, 8): the pure task delivers it, the C task delivers 7. */
  lemma TupleIsTornApart()
    ensures var st := Success(Tuple([Atom(7), Atom(8)]), map[]);
      OutcomeDelivery(st) == Gets(Tuple([Atom(7), Atom(8)])) && CDelivery(Data(st)) == Gets(Atom(7))
  {
  }

  /**
   What the C future makes of tuples and of StopIterations: the first element, or None, and the value of the
   StopIteration, be it the result or the error. The pure future gives the result, or a RuntimeError.
   */
  lemma UnpackedByC(items: seq<Val>, v: Val, sched: map<Cb, HandleId>)
    ensures CDelivery(Data(Success(Tuple(items), sched))) == Gets(if items == [] then NoneValue else items[0])
    ensures CDelivery(Data(Success(StopIterationValue(v), sched))) == Gets(v)
    ensures CDelivery(Data(Failed(StopIteration(v), sched))) == Gets(v)
    ensures OutcomeDelivery(Success(Tuple(items), sched)) == Gets(Tuple(items))
    ensures OutcomeDelivery(Failed(StopIteration(v), sched)) == GetsError(RuntimeError)
  {
  }

  /** The state of the future whose outcome the label delivers. */
  ghost function DeliversFrom(s: Sys, e: Label): Option<State>
    requires Enabled(s, e)
  {
    if !e.Begin? then None
    else
      match StepTarget(s.handles[e.handle].target)
      case None => None
      case Some(t) =>
        if t < |s.futs| && s.futs[t].st.Running? && s.futs[t].st.waitingOn < |s.futs|
        then Some(s.futs[s.futs[t].st.waitingOn].st) else None
  }

  /**
   What the C implementation gives. It differs where an outcome is delivered to a coroutine, and where
   the result of a task is set through a promise: the pure promise refuses the task, the C task the method.
   */
  ghost function CResult(s: Sys, e: Label): Res
    requires Enabled(s, e)
  {
    if e.SetResult? && s.futs[e.fut].coro != NoCoro then
      if e.out.Raised? && e.out.exc.Cancelled? then Raises(UseCancelInstead) else Raises(ForbiddenForTask)
    else if DeliversFrom(s, e).Some? then Resumes(CDelivery(Data(DeliversFrom(s, e).value)))
    else Step(s, e).1
  }

  /** The labels at which a program can tell the implementations apart. */
  ghost predicate Differs(s: Sys, e: Label)
    requires Enabled(s, e)
  {
    || (e.SetResult? && s.futs[e.fut].coro != NoCoro)
    || (DeliversFrom(s, e).Some? && !DeliveredAlike(DeliversFrom(s, e).value))
  }

  lemma DiffersExactly(s: Sys, e: Label)
    requires Enabled(s, e)
    ensures CResult(s, e) != Step(s, e).1 <==> Differs(s, e)
  {
    if DeliversFrom(s, e).Some? { DeliveredAlikeExactly(DeliversFrom(s, e).value); }
  }

  /** Result and snapshot after each label of a run of the machine. */
  ghost function PureTrace(s: Sys, es: seq<Label>): (tr: seq<(Res, Snapshot)>)
    requires IsRun(s, es)
    ensures |tr| == |es|
    decreases |es|
  {
    if es == [] then [] else [(Step(s, es[0]).1, PureSnapshot(Next(s, es[0])))] + PureTrace(Next(s, es[0]), es[1..])
  }

  /** The same with the results of the C implementation. */
  ghost function CTrace(s: Sys, es: seq<Label>): (tr: seq<(Res, Snapshot)>)
    requires IsRun(s, es)
    ensures |tr| == |es|
    decreases |es|
  {
    if es == [] then [] else [(CResult(s, es[0]), PureSnapshot(Next(s, es[0])))] + CTrace(Next(s, es[0]), es[1..])
  }

  /** Whether the implementations differ at each label of a run. */
  ghost function DiffersAt(s: Sys, es: seq<Label>): (ds: seq<bool>)
    requires IsRun(s, es)
    ensures |ds| == |es|
    decreases |es|
  {
    if es == [] then [] else [Differs(s, es[0])] + DiffersAt(Next(s, es[0]), es[1..])
  }

  /** The snapshots are always the same, and the results differ exactly where said. */
  lemma {:induction false} TracesDifferExactly(s: Sys, es: seq<Label>, k: nat)
    requires IsRun(s, es) && k < |es|
    ensures CTrace(s, es)[k].1 == PureTrace(s, es)[k].1
    ensures CTrace(s, es)[k].0 != PureTrace(s, es)[k].0 <==> DiffersAt(s, es)[k]
    decreases k
  {
    if k == 0 { DiffersExactly(s, es[0]); } else { TracesDifferExactly(Next(s, es[0]), es[1..], k - 1); }
  }

  // ---------- The simulation ----------

  /**
   The dictionary of scheduled callbacks. The C task never takes its step back out of it, so there
   may be more entries, for steps that have run.
   */
  ghost predicate SchedSim(p: Sys, ps: map<Cb, HandleId>, cs: map<Cb, HandleId>) {
    && (forall cb <- ps :: cb in cs && cs[cb] == ps[cb])
    && (forall cb <- cs | cb !in ps ::
          cb.StepOf? && cs[cb] < |p.handles| && (p.handles[cs[cb]].executed || p.cur == Some(cs[cb])))
  }

  ghost predicate FutureSim(p: Sys, st: State, d: FutureData) {
    match d
    case CPending(cbs) => !st.Done() && st.cbs == cbs
    case CSuccess(v, cs) => st.Success? && st.result == v && SchedSim(p, st.sched, cs)
    case CFailed(e, cs) => st.Failed? && st.exc == e && SchedSim(p, st.sched, cs)
  }

  ghost predicate ObjSim(p: Sys, f: Fut, o: Obj) {
    match o
    case CFuture(d) => f.coro == NoCoro && (f.st.Pending? || f.st.Done()) && FutureSim(p, f.st, d)
    case CTask(d, td, coro) =>
      && f.coro == coro != NoCoro
      && FutureSim(p, f.st, d)
      && match td
         case TaskCreated => f.st.Created?
         case TaskScheduled(h) => f.st.Scheduled? && f.st.handle == h
         case TaskCancelling(h, e) => f.st.Cancelling? && f.st.handle == h && f.st.inner == e
         case TaskRunning(w) => f.st.Running? && f.st.waitingOn == w
         case TaskFutState => f.st.Done()
  }

  /** Handles agree, except for the flag of one that has been entered and is then cancelled. */
  ghost predicate HandleSim(p: Sys, h: HandleId, c: Handle)
    requires h < |p.handles|
  {
    && c.target == p.handles[h].target
    && c.executed == p.handles[h].executed
    && (c.cancelled == p.handles[h].cancelled || c.executed || p.cur == Some(h))
  }

  ghost predicate Sim(p: Sys, objs: seq<Obj>, handles: seq<Handle>, cur: Option<HandleId>) {
    && |objs| == |p.futs| && |handles| == |p.handles| && cur == p.cur
    && (forall i: Id | i < |objs| :: ObjSim(p, p.futs[i], objs[i]))
    && (forall h: HandleId | h < |handles| :: HandleSim(p, h, handles[h]))
  }

  lemma {:induction false} LiveStepsAgree(p: seq<Handle>, c: seq<Handle>, cur: Option<HandleId>)
    requires |p| == |c|
    requires forall h | 0 <= h < |p| ::
               c[h].target == p[h].target && c[h].executed == p[h].executed
               && (c[h].cancelled == p[h].cancelled || c[h].executed || cur == Some(h))
    ensures LiveSteps(c, cur) == LiveSteps(p, cur)
  {
    if p != [] { LiveStepsAgree(p[..|p| - 1], c[..|c| - 1], cur); }
  }

  /** Related states cannot be told apart. */
  lemma SimulationObserved(p: Sys, objs: seq<Obj>, handles: seq<Handle>, cur: Option<HandleId>)
    requires Sim(p, objs, handles, cur)
    ensures forall i: Id | i < |objs| :: SeenC(objs[i]) == SeenPure(p.futs[i])
    ensures LiveSteps(handles, cur) == LiveSteps(p.handles, p.cur)
  {
    forall i: Id | i < |objs| ensures SeenC(objs[i]) == SeenPure(p.futs[i]) {
      assert ObjSim(p, p.futs[i], objs[i]);
    }
    forall h | 0 <= h < |handles|
      ensures handles[h].target == p.handles[h].target && handles[h].executed == p.handles[h].executed
      ensures handles[h].cancelled == p.handles[h].cancelled || handles[h].executed || cur == Some(h)
    {
      assert HandleSim(p, h, handles[h]);
    }
    LiveStepsAgree(p.handles, handles, cur);
  }

  // ---------- Frames ----------

  predicate Entered(p: Sys, h: HandleId) {
    h < |p.handles| && (p.handles[h].executed || p.cur == Some(h))
  }

  /** Handles that have been entered stay so; then unchanged futures stay related. */
  ghost predicate KeepsEntered(p: Sys, p': Sys) {
    forall h: HandleId | Entered(p, h) :: Entered(p', h)
  }

  lemma ObjSimKept(p: Sys, p': Sys, f: Fut, o: Obj)
    requires ObjSim(p, f, o) && KeepsEntered(p, p')
    ensures ObjSim(p', f, o)
  {
    if f.st.Done() && !o.super.CPending? {
      forall cb <- o.super.sched | cb !in f.st.sched ensures Entered(p', o.super.sched[cb]) {
        assert Entered(p, o.super.sched[cb]);
      }
    }
  }

  /** One future has changed on both sides, and handles may have been added or flagged. */
  lemma SimWithOne(p: Sys, p': Sys, objs: seq<Obj>, objs': seq<Obj>, handles: seq<Handle>, handles': seq<Handle>, i: Id)
    requires Sim(p, objs, handles, p.cur) && i < |objs|
    requires |p'.futs| == |p.futs| && |objs'| == |objs| && p'.cur == p.cur
    requires forall j: Id | j < |objs| && j != i :: p'.futs[j] == p.futs[j] && objs'[j] == objs[j]
    requires KeepsEntered(p, p') && ObjSim(p', p'.futs[i], objs'[i])
    requires |handles'| == |p'.handles| && forall h: HandleId | h < |handles'| :: HandleSim(p', h, handles'[h])
    ensures Sim(p', objs', handles', p'.cur)
  {
    forall j: Id | j < |objs'| ensures ObjSim(p', p'.futs[j], objs'[j]) {
      if j != i { ObjSimKept(p, p', p.futs[j], objs[j]); }
    }
  }

  // ---------- Steps on both sides ----------

  lemma Appended<T>(before: seq<T>, x: T, rest: seq<T>)
    ensures before + ([x] + rest) == (before + [x]) + rest
  {
  }

  lemma UnrollTrace(s: Sys, es: seq<Label>, k: nat)
    requires k < |es| && IsRun(s, es[k..])
    ensures Enabled(s, es[k]) && IsRun(Next(s, es[k]), es[k + 1..])
    ensures After(s, es[k..]) == After(Next(s, es[k]), es[k + 1..])
    ensures PureTrace(s, es[k..])
            == [(Step(s, es[k]).1, PureSnapshot(Next(s, es[k])))] + PureTrace(Next(s, es[k]), es[k + 1..])
    ensures CTrace(s, es[k..])
            == [(CResult(s, es[k]), PureSnapshot(Next(s, es[k])))] + CTrace(Next(s, es[k]), es[k + 1..])
  {
    assert es[k..][0] == es[k] && es[k..][1..] == es[k + 1..];
  }

  /** The loop enters a handle; only the coroutine state of the task it steps changes. */
  lemma SimBegin(p: Sys, h: HandleId, objs: seq<Obj>, objs': seq<Obj>, handles: seq<Handle>)
    requires Sim(p, objs, handles, None) && Inv(p) && Enabled(p, Begin(h))
    requires match StepTarget(p.handles[h].target)
             case None => objs' == objs
             case Some(t) => t < |objs| && objs[t].CTask? && objs' == objs[t := objs[t].(coro := Executing)]
    ensures Sim(Next(p, Begin(h)), objs', handles, Some(h))
  {
    var p' := Next(p, Begin(h));
    assert HandleOk(p, h);
    var t := StepTarget(p.handles[h].target);
    if t.Some? { WaitedStateOk(p, t.value); }
    forall j: Id | j < |objs'| ensures ObjSim(p', p'.futs[j], objs'[j]) {
      assert ObjSim(p, p.futs[j], objs[j]);
      ObjSimKept(p, p', p.futs[j], objs[j]);
    }
    forall g: HandleId | g < |handles| ensures HandleSim(p', g, handles[g]) { assert HandleSim(p, g, handles[g]); }
  }

  /** The pure task takes its step back from what it waited on, the C task does not. */
  lemma SimCleanUp(p: Sys, t: Id, objs: seq<Obj>, handles: seq<Handle>)
    requires Sim(p, objs, handles, p.cur) && Inv(p) && CurTask(p) == Some(t) && t < |p.futs|
    ensures Sim(CleanUp(p, t), objs, handles, p.cur)
  {
    var p' := CleanUp(p, t);
    if p.futs[t].st.Running? {
      CleanUpShape(p, t);
      WaitedStateOk(p, t);
      assert HandleOk(p, p.cur.value);
      forall j: Id | j < |objs| ensures ObjSim(p', p'.futs[j], objs[j]) {
        assert ObjSim(p, p.futs[j], objs[j]);
        ObjSimKept(p, p', p.futs[j], objs[j]);
      }
      forall g: HandleId | g < |handles| ensures HandleSim(p', g, handles[g]) { assert HandleSim(p, g, handles[g]); }
    }
  }

  function Tagged(out: Outcome, sched: map<Cb, HandleId>): FutureData {
    match out
    case Value(v) => CSuccess(v, sched)
    case Raised(e) => CFailed(e, sched)
  }

  lemma SimEnqueue(p: Sys, tg: Target, objs: seq<Obj>, handles: seq<Handle>, cur: Option<HandleId>)
    requires Sim(p, objs, handles, cur)
    ensures Sim(Enqueue(p, tg), objs, handles + [Handle(tg, false, false)], cur)
  {
    var p' := Enqueue(p, tg);
    forall j: Id | j < |objs| ensures ObjSim(p', p'.futs[j], objs[j]) { ObjSimKept(p, p', p.futs[j], objs[j]); }
    forall h: HandleId | h < |p'.handles| ensures HandleSim(p', h, (handles + [Handle(tg, false, false)])[h]) {
      if h < |handles| { assert HandleSim(p, h, handles[h]); }
    }
  }

  lemma SimCancelHandle(p: Sys, h: HandleId, objs: seq<Obj>, handles: seq<Handle>, cur: Option<HandleId>)
    requires Sim(p, objs, handles, cur) && h < |handles|
    ensures Sim(CancelledHandle(p, h), objs, handles[h := handles[h].(cancelled := true)], cur)
  {
    var p' := CancelledHandle(p, h);
    var handles' := handles[h := handles[h].(cancelled := true)];
    forall j: Id | j < |objs| ensures ObjSim(p', p'.futs[j], objs[j]) { ObjSimKept(p, p', p.futs[j], objs[j]); }
    forall g: HandleId | g < |handles'| ensures HandleSim(p', g, handles'[g]) { assert HandleSim(p, g, handles[g]); }
  }

  lemma SimLeave(p: Sys, objs: seq<Obj>, handles: seq<Handle>)
    requires Sim(p, objs, handles, p.cur) && p.cur.Some? && p.cur.value < |handles|
    ensures Sim(Leave(p), objs, handles[p.cur.value := handles[p.cur.value].(executed := true)], None)
  {
    var p' := Leave(p);
    var handles' := handles[p.cur.value := handles[p.cur.value].(executed := true)];
    forall j: Id | j < |objs| ensures ObjSim(p', p'.futs[j], objs[j]) { ObjSimKept(p, p', p.futs[j], objs[j]); }
    forall g: HandleId | g < |handles'| ensures HandleSim(p', g, handles'[g]) { assert HandleSim(p, g, handles[g]); }
  }

  lemma SimFinish(p: Sys, f: Id, out: Outcome, order: seq<Cb>,
                  objs: seq<Obj>, objs': seq<Obj>, handles: seq<Handle>, handles': seq<Handle>)
    requires Sim(p, objs, handles, p.cur) && f < |objs| && !p.futs[f].st.Done()
    requires var done := Tagged(out, SchedOf(order, |handles|));
             objs' == objs[f := if objs[f].CTask? then CTask(done, TaskFutState, objs[f].coro) else CFuture(done)]
    requires handles' == handles + Fired(order, f)
    ensures Sim(Finish(p, f, out, order), objs', handles', p.cur)
  {
    var p' := Finish(p, f, out, order);
    assert ObjSim(p, p.futs[f], objs[f]);
    assert ObjSim(p', p'.futs[f], objs'[f]);
    forall h: HandleId | h < |handles'| ensures HandleSim(p', h, handles'[h]) {
      if h < |handles| { assert HandleSim(p, h, handles[h]); }
    }
    SimWithOne(p, p', objs, objs', handles, handles', f);
  }
}
