/**
 The futures and tasks of one loop, as a machine of labelled steps.

 Futures, tasks and handles are named by their index in a sequence. A label is one call into
 aio/future/pure.py, or one boundary of a coroutine's execution (the loop enters a handle, the
 coroutine yields, returns or raises). The coroutine itself is the environment: between
 `Begin` and the label that ends it, any other label may occur.

 Handles that are not cancelled may be entered in any order. The orders of the event loop are among
 them (LoopOfFutures.LoopRunsAreRuns), so what holds here holds under that loop.
 */
module FutureMachine {
  import opened Wrappers

  type Id = nat
  type HandleId = nat

  /** Results. The two implementations deliver tuples and instances of StopIteration differently. */
  datatype Val = NoneValue | Atom(tag: int) | Tuple(items: seq<Val>) | StopIterationValue(value: Val)

  /** An instance of `Exception`, or of the `Cancelled` family, which is not one. */
  datatype Exc = Exception(tag: int) | RuntimeError | StopIteration(value: Val) | Cancelled(tag: int)

  /** inspect.getcoroutinestate; `NoCoro` marks a plain future. */
  datatype Coro = NoCoro | Fresh | Executing | Suspended | Closed

  /** A result callback: the bound method `_step` of a task, or one the user registered. */
  datatype Cb = StepOf(task: Id) | User(key: nat)

  /** What a handle calls: a callback with its finished future, `_step(None)`, or user code. */
  datatype Target = Callback(cb: Cb, fut: Id) | Kick(task: Id) | Plain(key: nat)

  datatype Handle = Handle(target: Target, cancelled: bool, executed: bool)

  /** The state dataclasses of a future (`Pending`, `Success`, `Failed`) and of a task. */
  datatype State =
    | Pending(cbs: set<Cb>)
    | Created(cbs: set<Cb>)
    | Scheduled(cbs: set<Cb>, handle: HandleId)
    | Cancelling(cbs: set<Cb>, handle: HandleId, inner: Exc)
    | Running(cbs: set<Cb>, waitingOn: Id)
    | Success(result: Val, sched: map<Cb, HandleId>)
    | Failed(exc: Exc, sched: map<Cb, HandleId>)
  {
    predicate Done() {
      Success? || Failed?
    }
  }

  datatype Outcome = Value(val: Val) | Raised(exc: Exc)

  datatype Fut = Fut(st: State, coro: Coro)

  /** `cur` is the handle the loop is executing; `ran` lists the handles it has entered. */
  datatype Sys = Sys(futs: seq<Fut>, handles: seq<Handle>, cur: Option<HandleId>, ran: seq<HandleId>)

  const INIT: Sys := Sys([], [], None, [])

  /** What a coroutine is resumed with. `StillPending` is the guard of `Future.__await__`. */
  datatype Delivery = FirstSend | Gets(val: Val) | GetsError(exc: Exc) | Throws(exc: Exc) | StillPending

  datatype Error =
    | FutureFinished
    | AlreadyCancelling
    | CancelledInCaller(exc: Exc)   // cancelling the executing task raises in the caller
    | NotNewlyCreated
    | PromiseOfTask
    | ForbiddenForTask
    | UseCancelInstead
    | AwaitsItself
    // The internal guards
    | ResumedFinished
    | BadCoroState
    | HandleExecuted
    | SelfCancelForbidden
    | CoroutineNotFinished
    | AssertionFailed
    | RecursionError

  datatype Res = Ok | Resumes(delivery: Delivery) | Raises(error: Error)

  predicate IsGuard(r: Res) {
    match r
    case Raises(e) =>
      e in {ResumedFinished, BadCoroState, HandleExecuted, SelfCancelForbidden, CoroutineNotFinished,
            AssertionFailed, RecursionError}
    case Resumes(d) => d == StillPending
    case Ok => false
  }

  /**
   `order` is the order in which the callback set of a finishing future is iterated.
   The environment chooses it.
   */
  datatype Label =
    | NewFuture
    | NewTask
    | Schedule(task: Id)
    | AddCb(fut: Id, key: nat)
    | RemoveCb(fut: Id, key: nat)
    | SetResult(fut: Id, out: Outcome, order: seq<Cb>)
    | Cancel(fut: Id, c: Exc, order: seq<Cb>)
    | Begin(handle: HandleId)
    | EndYield(fut: Id)
    | EndStep(out: Outcome, order: seq<Cb>)
    | EndCallback
    | CallSoon(key: nat)
    | CancelHandle(handle: HandleId)

  // ---------- Handles ----------

  predicate Live(s: Sys, h: HandleId) {
    && h < |s.handles|
    && !s.handles[h].cancelled
    && !s.handles[h].executed
    && s.cur != Some(h)
  }

  function StepTarget(tg: Target): Option<Id> {
    match tg
    case Kick(t) => Some(t)
    case Callback(StepOf(t), _) => Some(t)
    case _ => None
  }

  /** The task whose coroutine the loop is executing. */
  function CurTask(s: Sys): Option<Id> {
    if s.cur.Some? && s.cur.value < |s.handles| then StepTarget(s.handles[s.cur.value].target) else None
  }

  function Enqueue(s: Sys, tg: Target): Sys {
    s.(handles := s.handles + [Handle(tg, false, false)])
  }

  function CancelledHandle(s: Sys, h: HandleId): Sys {
    if h < |s.handles| then s.(handles := s.handles[h := s.handles[h].(cancelled := true)]) else s
  }

  /** The loop marks the handle it leaves as executed. */
  function Leave(s: Sys): Sys {
    if s.cur.Some? && s.cur.value < |s.handles| then
      s.(handles := s.handles[s.cur.value := s.handles[s.cur.value].(executed := true)], cur := None)
    else s.(cur := None)
  }

  // ---------- Futures ----------

  function WithState(s: Sys, i: Id, st: State): Sys
    requires i < |s.futs|
  {
    s.(futs := s.futs[i := s.futs[i].(st := st)])
  }

  function WithCoro(s: Sys, i: Id, c: Coro): Sys
    requires i < |s.futs|
  {
    s.(futs := s.futs[i := s.futs[i].(coro := c)])
  }

  predicate NoDup<T(==)>(xs: seq<T>) {
    forall i, j | 0 <= i < j < |xs| :: xs[i] != xs[j]
  }

  predicate Enumerates(order: seq<Cb>, cbs: set<Cb>) {
    && NoDup(order)
    && (forall cb <- cbs :: cb in order)
    && (forall cb <- order :: cb in cbs)
  }

  /** The dictionary from each callback to the handle that `_schedule_callbacks` created for it. */
  function SchedOf(order: seq<Cb>, base: HandleId): map<Cb, HandleId> {
    if order == [] then map[]
    else SchedOf(order[..|order| - 1], base)[order[|order| - 1] := base + |order| - 1]
  }

  function Fired(order: seq<Cb>, f: Id): seq<Handle> {
    seq(|order|, i requires 0 <= i < |order| => Handle(Callback(order[i], f), false, false))
  }

  function FinalState(out: Outcome, sched: map<Cb, HandleId>): State {
    match out
    case Value(v) => Success(v, sched)
    case Raised(e) => Failed(e, sched)
  }

  /** `Future._set_result` on a future that is still pending. */
  function Finish(s: Sys, f: Id, out: Outcome, order: seq<Cb>): Sys
    requires f < |s.futs|
  {
    var s1 := s.(handles := s.handles + Fired(order, f));
    WithState(s1, f, FinalState(out, SchedOf(order, |s.handles|)))
  }

  function AddCallback(s: Sys, f: Id, cb: Cb): (Sys, Res)
    requires f < |s.futs|
  {
    var st := s.futs[f].st;
    if st.Done() then (s, Raises(FutureFinished))
    else (WithState(s, f, st.(cbs := st.cbs + {cb})), Ok)
  }

  function RemoveCallback(s: Sys, f: Id, cb: Cb): Sys
    requires f < |s.futs|
  {
    var st := s.futs[f].st;
    if !st.Done() then WithState(s, f, st.(cbs := st.cbs - {cb}))
    else if cb in st.sched then
      CancelledHandle(WithState(s, f, st.(sched := st.sched - {cb})), st.sched[cb])
    else s
  }

  // ---------- Cancellation ----------

  /** The unfinished future a task waits on. */
  function Follow(s: Sys, i: Id): Option<Id> {
    if i < |s.futs| && s.futs[i].coro != Executing && s.futs[i].st.Running?
       && s.futs[i].st.waitingOn < |s.futs| && !s.futs[s.futs[i].st.waitingOn].st.Done()
    then Some(s.futs[i].st.waitingOn) else None
  }

  /** The chain of waits that starts at `i` ends within `n` steps. */
  ghost predicate Halts(s: Sys, i: Id, n: nat)
    decreases n
  {
    match Follow(s, i)
    case None => true
    case Some(w) => n > 0 && Halts(s, w, n - 1)
  }

  ghost predicate Halting(s: Sys, i: Id) {
    exists n: nat :: Halts(s, i, n)
  }

  ghost predicate Acyclic(s: Sys) {
    forall i: Id | i < |s.futs| :: Halting(s, i)
  }

  /** The last future of the chain. */
  ghost function Leaf(s: Sys, i: Id, n: nat): (leaf: Id)
    requires Halts(s, i, n)
    decreases n
  {
    match Follow(s, i)
    case None => i
    case Some(w) => Leaf(s, w, n - 1)
  }

  ghost function LeafOf(s: Sys, i: Id): (leaf: Id)
    requires Halting(s, i)
  {
    var n: nat :| Halts(s, i, n);
    Leaf(s, i, n)
  }

  ghost predicate Reaches(s: Sys, i: Id, j: Id, n: nat)
    decreases n
  {
    i == j || (Follow(s, i).Some? && n > 0 && Reaches(s, Follow(s, i).value, j, n - 1))
  }

  /** `_go_to_inner_cancellation`, with its assertion and the coroutine-state check of the state it builds. */
  function GoCancelling(s: Sys, t: Id, c: Exc): (Sys, Res)
    requires t < |s.futs|
  {
    var st := s.futs[t].st;
    var s1 := Enqueue(s, Kick(t));
    if !st.Created? && !st.Scheduled? && !st.Running? then (s, Raises(AssertionFailed))
    else if s.futs[t].coro != Suspended && s.futs[t].coro != Fresh then (s1, Raises(BadCoroState))
    else (WithState(s1, t, Cancelling(st.cbs, |s.handles|, c)), Ok)
  }

  /** `_cancel` of the future at the end of a chain of waits. */
  function CancelLeaf(s: Sys, i: Id, c: Exc, order: seq<Cb>): (Sys, Res)
    requires i < |s.futs|
  {
    var f := s.futs[i];
    if f.st.Done() then (s, Raises(FutureFinished))
    else if f.coro == NoCoro then (Finish(s, i, Raised(c), order), Ok)
    else if f.coro == Executing then (s, Raises(CancelledInCaller(c)))
    else
      match f.st
      case Created(_) => GoCancelling(s, i, c)
      case Scheduled(_, h) =>
        if h < |s.handles| && s.handles[h].executed then (s, Raises(HandleExecuted))
        else GoCancelling(CancelledHandle(s, h), i, c)
      case Running(_, w) =>
        if w < |s.futs| then GoCancelling(RemoveCallback(s, w, StepOf(i)), i, c)
        else (s, Raises(BadCoroState))
      case Cancelling(_, _, _) => (s, Raises(AlreadyCancelling))
      case _ => (s, Raises(BadCoroState))
  }

  ghost function CancelFuture(s: Sys, i: Id, c: Exc, order: seq<Cb>): (Sys, Res)
    requires i < |s.futs|
  {
    if Halting(s, i) && LeafOf(s, i) < |s.futs| then CancelLeaf(s, LeafOf(s, i), c, order)
    else (s, Raises(RecursionError))
  }

  // ---------- Coroutine steps ----------

  /**
   What `__await__` gives to the awaiting coroutine. It is a generator, in which the language turns
   a StopIteration into a RuntimeError.
   */
  function OutcomeDelivery(st: State): Delivery {
    match st
    case Success(v, _) => Gets(v)
    case Failed(StopIteration(_), _) => GetsError(RuntimeError)
    case Failed(e, _) => GetsError(e)
    case _ => StillPending
  }

  /** What `_step` sends or throws into the coroutine of `t`. */
  function StepDelivery(s: Sys, t: Id): Res
    requires t < |s.futs|
  {
    match s.futs[t].st
    case Scheduled(_, _) => Resumes(FirstSend)
    case Running(_, w) => Resumes(if w < |s.futs| then OutcomeDelivery(s.futs[w].st) else StillPending)
    case Cancelling(_, _, e) => Resumes(Throws(e))
    case _ => Raises(ResumedFinished)
  }

  function BeginHandle(s: Sys, h: HandleId): (Sys, Res)
    requires h < |s.handles|
  {
    var s1 := s.(cur := Some(h), ran := s.ran + [h]);
    match StepTarget(s.handles[h].target)
    case None => (s1, Ok)
    case Some(t) =>
      if t >= |s.futs| || StepDelivery(s, t).Raises? then (Leave(s1), Raises(ResumedFinished))
      else (WithCoro(s1, t, Executing), StepDelivery(s, t))
  }

  /** The `finally` clause of `_step`. */
  function CleanUp(s: Sys, t: Id): Sys
    requires t < |s.futs|
  {
    var st := s.futs[t].st;
    if st.Running? && st.waitingOn < |s.futs| then RemoveCallback(s, st.waitingOn, StepOf(t)) else s
  }

  function SuspendOn(s: Sys, t: Id, f: Id): Sys
    requires t < |s.futs| && f < |s.futs| && t != f
    requires !s.futs[t].st.Done() && !s.futs[f].st.Done()
  {
    var st := s.futs[f].st;
    s.(futs := s.futs[f := s.futs[f].(st := st.(cbs := st.cbs + {StepOf(t)}))]
                     [t := Fut(Running(s.futs[t].st.cbs, f), Suspended)])
  }

  /**
   The end of `_step` when the coroutine has yielded the future `f`: it is suspended, which the
   running state checks.
   */
  function YieldOn(s: Sys, t: Id, f: Id): (Sys, Res)
    requires t < |s.futs| && f < |s.futs|
  {
    var s1 := WithCoro(CleanUp(s, t), t, Suspended);
    var (s2, r) := AddCallback(s1, f, StepOf(t));
    if t == f then (Leave(s1), Raises(AwaitsItself))
    else if r != Ok then (Leave(s2), r)
    else if s2.futs[t].st.Done() then (Leave(s2), Raises(AssertionFailed))
    else if s2.futs[t].coro != Suspended then (Leave(s2), Raises(BadCoroState))
    else (Leave(WithState(s2, t, Running(s2.futs[t].st.cbs, f))), Ok)
  }

  /** `Task._set_result` */
  function SetTaskResult(s: Sys, t: Id, out: Outcome, order: seq<Cb>): (Sys, Res)
    requires t < |s.futs|
  {
    var coro := s.futs[t].coro;
    if s.futs[t].st.Done() then (s, Raises(FutureFinished))
    else if out.Raised? && out.exc.Cancelled? && coro == Executing then (s, Raises(SelfCancelForbidden))
    else if coro != Closed then (s, Raises(CoroutineNotFinished))
    else (Finish(s, t, out, order), Ok)
  }

  /** The end of `_step` when the coroutine has returned or raised, and is closed. */
  function FinishStep(s: Sys, t: Id, out: Outcome, order: seq<Cb>): (Sys, Res)
    requires t < |s.futs|
  {
    var (s1, r) := SetTaskResult(WithCoro(s, t, Closed), t, out, order);
    (Leave(s1), r)
  }

  /** What the two ends of a step come to when the environment keeps its contract. */
  lemma StepEnds(s: Sys, t: Id, f: Id, out: Outcome, order: seq<Cb>)
    requires t < |s.futs| && !s.futs[t].st.Done()
    ensures FinishStep(s, t, out, order) == (Leave(WithCoro(Finish(s, t, out, order), t, Closed)), Ok)
    ensures f < |s.futs| && f != t && !s.futs[f].st.Done() ==>
      YieldOn(s, t, f) == (Leave(SuspendOn(CleanUp(s, t), t, f)), Ok)
  {
    assert Finish(WithCoro(s, t, Closed), t, out, order).futs == WithCoro(Finish(s, t, out, order), t, Closed).futs;
    if f < |s.futs| && f != t && !s.futs[f].st.Done() {
      var s0 := CleanUp(s, t);
      var s2 := AddCallback(WithCoro(s0, t, Suspended), f, StepOf(t)).0;
      assert WithState(s2, t, Running(s2.futs[t].st.cbs, f)).futs == SuspendOn(s0, t, f).futs;
    }
  }

  // ---------- The machine ----------

  /** What the environment may do: the contract of the loop, of promises and of coroutines. */
  ghost predicate Enabled(s: Sys, e: Label) {
    match e
    case NewFuture => true
    case NewTask => true
    case Schedule(t) => t < |s.futs| && s.futs[t].coro != NoCoro
    case AddCb(f, _) => f < |s.futs|
    case RemoveCb(f, _) => f < |s.futs|
    case SetResult(f, _, order) => f < |s.futs| && EnumeratesIfPending(s, f, order)
    case Cancel(f, c, order) =>
      f < |s.futs| && c.Cancelled? && (Halting(s, f) ==> EnumeratesIfPending(s, LeafOf(s, f), order))
    case Begin(h) => s.cur == None && Live(s, h)
    case EndYield(f) =>
      && CurTask(s).Some? && CurTask(s).value < |s.futs|
      && f < |s.futs| && f != CurTask(s).value && !s.futs[f].st.Done()
      && !s.futs[CurTask(s).value].st.Done()
      && (forall n: nat :: !Reaches(s, f, CurTask(s).value, n))
    case EndStep(out, order) =>
      && !(out.Raised? && out.exc.StopIteration?)   // the language does not let a coroutine raise it
      && CurTask(s).Some? && CurTask(s).value < |s.futs|
      && !s.futs[CurTask(s).value].st.Done()
      && Enumerates(order, s.futs[CurTask(s).value].st.cbs)
    case EndCallback => s.cur.Some? && CurTask(s) == None
    case CallSoon(_) => true
    case CancelHandle(h) => h < |s.handles| && s.handles[h].target.Plain?
  }

  predicate EnumeratesIfPending(s: Sys, f: Id, order: seq<Cb>) {
    f < |s.futs| && s.futs[f].st.Pending? ==> Enumerates(order, s.futs[f].st.cbs)
  }

  /** The new state and what the caller sees. */
  ghost function Step(s: Sys, e: Label): (r: (Sys, Res))
    requires Enabled(s, e)
  {
    match e
    case NewFuture => (s.(futs := s.futs + [Fut(Pending({}), NoCoro)]), Ok)
    case NewTask => (s.(futs := s.futs + [Fut(Created({}), Fresh)]), Ok)
    case Schedule(t) =>
      if !s.futs[t].st.Created? then (s, Raises(NotNewlyCreated))
      else if s.futs[t].coro != Fresh then (Enqueue(s, Kick(t)), Raises(BadCoroState))
      else (WithState(Enqueue(s, Kick(t)), t, Scheduled(s.futs[t].st.cbs, |s.handles|)), Ok)
    case AddCb(f, k) => AddCallback(s, f, User(k))
    case RemoveCb(f, k) => (RemoveCallback(s, f, User(k)), Ok)
    case SetResult(f, out, order) =>
      if s.futs[f].coro != NoCoro then (s, Raises(PromiseOfTask))
      else if out.Raised? && out.exc.Cancelled? then (s, Raises(UseCancelInstead))
      else if s.futs[f].st.Done() then (s, Raises(FutureFinished))
      else (Finish(s, f, out, order), Ok)
    case Cancel(f, c, order) => CancelFuture(s, f, c, order)
    case Begin(h) => BeginHandle(s, h)
    case EndYield(f) => YieldOn(s, CurTask(s).value, f)
    case EndStep(out, order) => FinishStep(s, CurTask(s).value, out, order)
    case EndCallback => (Leave(s), Ok)
    case CallSoon(k) => (Enqueue(s, Plain(k)), Ok)
    case CancelHandle(h) => (CancelledHandle(s, h), Ok)
  }

  ghost function Next(s: Sys, e: Label): Sys
    requires Enabled(s, e)
  {
    Step(s, e).0
  }

  ghost predicate IsRun(s: Sys, es: seq<Label>)
    decreases |es|
  {
    es == [] || (Enabled(s, es[0]) && IsRun(Next(s, es[0]), es[1..]))
  }

  ghost function After(s: Sys, es: seq<Label>): Sys
    requires IsRun(s, es)
    decreases |es|
  {
    if es == [] then s else After(Next(s, es[0]), es[1..])
  }

  /** What the callers of a run see, label by label. */
  ghost function Results(s: Sys, es: seq<Label>): (rs: seq<Res>)
    requires IsRun(s, es)
    ensures |rs| == |es|
    decreases |es|
  {
    if es == [] then [] else [Step(s, es[0]).1] + Results(Next(s, es[0]), es[1..])
  }
}
