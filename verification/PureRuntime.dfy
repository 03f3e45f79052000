/**
 aio/future/pure.py as an object that updates its fields in place. Each method is proved against
 the machine of FutureMachine: the tables after it are those of the labelled step.
 */
module PureRuntime {
  import opened Wrappers
  import opened FutureMachine
  import opened WakeUps
  import opened Reachability
  import opened Outcomes

  class Runtime {
    var futs: seq<Fut>
    var handles: seq<Handle>
    var cur: Option<HandleId>
    ghost var ran: seq<HandleId>

    ghost function State(): Sys
      reads this
    {
      Sys(futs, handles, cur, ran)
    }

    constructor ()
      ensures State() == INIT
    {
      futs, handles, cur, ran := [], [], None, [];
    }

    // ---------- Handles ----------

    method CallSoon(tg: Target) returns (h: HandleId)
      modifies this
      ensures State() == Enqueue(old(State()), tg) && h == |old(handles)|
    {
      h := |handles|;
      handles := handles + [Handle(tg, false, false)];
    }

    method CancelHandle(h: HandleId)
      requires h < |handles|
      modifies this
      ensures State() == CancelledHandle(old(State()), h)
    {
      handles := handles[h := handles[h].(cancelled := true)];
    }

    /** The loop has called the handle and marks it, whatever the call did. */
    method HandleInvoked()
      requires cur.Some? && cur.value < |handles|
      modifies this
      ensures State() == Leave(old(State()))
    {
      handles := handles[cur.value := handles[cur.value].(executed := true)];
      cur := None;
    }

    // ---------- Future ----------

    method AddCallback(f: Id, cb: Cb) returns (r: Res)
      requires f < |futs|
      modifies this
      ensures (State(), r) == FutureMachine.AddCallback(old(State()), f, cb)
    {
      var st := futs[f].st;
      if st.Success? || st.Failed? {
        return Raises(FutureFinished);
      }
      futs := futs[f := futs[f].(st := st.(cbs := st.cbs + {cb}))];
      return Ok;
    }

    method RemoveCallback(f: Id, cb: Cb)
      requires f < |futs|
      requires futs[f].st.Done() && cb in futs[f].st.sched ==> futs[f].st.sched[cb] < |handles|
      modifies this
      ensures State() == FutureMachine.RemoveCallback(old(State()), f, cb)
    {
      var st := futs[f].st;
      if !st.Success? && !st.Failed? {
        futs := futs[f := futs[f].(st := st.(cbs := st.cbs - {cb}))];
      } else if cb in st.sched {
        var handle := st.sched[cb];
        futs := futs[f := futs[f].(st := st.(sched := st.sched - {cb}))];
        CancelHandle(handle);
      }
    }

    /** One new handle per callback, in the order in which the set is iterated. */
    method ScheduleCallbacks(f: Id, order: seq<Cb>) returns (sched: map<Cb, HandleId>)
      requires f < |futs| && !futs[f].st.Done() && Enumerates(order, futs[f].st.cbs)
      modifies this
      ensures State() == old(State()).(handles := old(handles) + Fired(order, f))
      ensures sched == SchedOf(order, |old(handles)|)
    {
      sched := map[];
      for k := 0 to |order|
        invariant State() == old(State()).(handles := handles)
        invariant handles == old(handles) + Fired(order[..k], f)
        invariant sched == SchedOf(order[..k], |old(handles)|)
      {
        var handle := CallSoon(Callback(order[k], f));
        assert order[..k + 1][..k] == order[..k];
        assert Fired(order[..k + 1], f) == Fired(order[..k], f) + [Handle(Callback(order[k], f), false, false)];
        sched := sched[order[k] := handle];
      }
      assert order[..|order|] == order;
    }

    method SetFutureResult(f: Id, out: Outcome, order: seq<Cb>) returns (r: Res)
      requires f < |futs|
      requires !futs[f].st.Done() ==> Enumerates(order, futs[f].st.cbs)
      modifies this
      ensures if old(futs[f].st.Done()) then State() == old(State()) && r == Raises(FutureFinished)
              else State() == Finish(old(State()), f, out, order) && r == Ok && Holds(State(), f, out)
    {
      if futs[f].st.Success? || futs[f].st.Failed? {
        return Raises(FutureFinished);
      }
      var sched := ScheduleCallbacks(f, order);
      match out {
        case Value(v) => futs := futs[f := futs[f].(st := Success(v, sched))];
        case Raised(e) => futs := futs[f := futs[f].(st := Failed(e, sched))];
      }
      return Ok;
    }

    method SetPromiseResult(f: Id, out: Outcome, order: seq<Cb>) returns (r: Res)
      requires Enabled(State(), SetResult(f, out, order)) && StatesOk(State())
      modifies this
      ensures (State(), r) == Step(old(State()), SetResult(f, out, order))
    {
      assert StateOk(State(), f);
      if futs[f].coro != NoCoro {
        return Raises(PromiseOfTask);
      }
      if out.Raised? && out.exc.Cancelled? {
        return Raises(UseCancelInstead);
      }
      r := SetFutureResult(f, out, order);
    }

    // ---------- Task ----------

    method SetTaskResult(t: Id, out: Outcome, order: seq<Cb>) returns (r: Res)
      requires t < |futs| && (!futs[t].st.Done() ==> Enumerates(order, futs[t].st.cbs))
      modifies this
      ensures (State(), r) == FutureMachine.SetTaskResult(old(State()), t, out, order)
    {
      if !futs[t].st.Success? && !futs[t].st.Failed? {
        var coro := futs[t].coro;
        if out.Raised? && out.exc.Cancelled? && coro == Executing {
          return Raises(SelfCancelForbidden);
        }
        if coro != Closed {
          return Raises(CoroutineNotFinished);
        }
      }
      r := SetFutureResult(t, out, order);
    }

    method GoToInnerCancellation(t: Id, c: Exc) returns (r: Res)
      requires t < |futs|
      modifies this
      ensures (State(), r) == GoCancelling(old(State()), t, c)
    {
      var st := futs[t].st;
      if !st.Created? && !st.Scheduled? && !st.Running? {
        return Raises(AssertionFailed);
      }
      var handle := CallSoon(Kick(t));
      if futs[t].coro != Suspended && futs[t].coro != Fresh {
        return Raises(BadCoroState);
      }
      futs := futs[t := futs[t].(st := Cancelling(st.cbs, handle, c))];
      return Ok;
    }

    /** `cancel_future`: follows the unfinished futures that are waited on. */
    method Cancel(i: Id, c: Exc, order: seq<Cb>, ghost n: nat) returns (r: Res)
      requires Inv(State()) && i < |futs| && Halts(State(), i, n)
      requires EnumeratesIfPending(State(), Leaf(State(), i, n), order)
      modifies this
      decreases n
      ensures old(Leaf(State(), i, n)) < |old(futs)|
      ensures (State(), r) == CancelLeaf(old(State()), old(Leaf(State(), i, n)), c, order)
    {
      LeafIsLast(State(), i, n);
      WaitedStateOk(State(), i);
      var f := futs[i];
      if f.coro == NoCoro {
        r := SetFutureResult(i, Raised(c), order);
        return;
      }
      if f.st.Success? || f.st.Failed? {
        return Raises(FutureFinished);
      }
      if f.coro == Executing {
        return Raises(CancelledInCaller(c));
      }
      match f.st {
        case Created(_) =>
          r := GoToInnerCancellation(i, c);
        case Scheduled(_, handle) =>
          if handles[handle].executed {
            return Raises(HandleExecuted);
          }
          CancelHandle(handle);
          r := GoToInnerCancellation(i, c);
        case Running(_, waitingOn) =>
          var w := futs[waitingOn].st;
          if !w.Success? && !w.Failed? {
            r := Cancel(waitingOn, c, order, n - 1);
          } else {
            RemoveCallback(waitingOn, StepOf(i));
            r := GoToInnerCancellation(i, c);
          }
        case Cancelling(_, _, _) =>
          return Raises(AlreadyCancelling);
      }
    }

    method ScheduleFirstStep(t: Id) returns (r: Res)
      requires Enabled(State(), Schedule(t))
      modifies this
      ensures (State(), r) == Step(old(State()), Schedule(t))
    {
      if !futs[t].st.Created? {
        return Raises(NotNewlyCreated);
      }
      var cbs := futs[t].st.cbs;
      var handle := CallSoon(Kick(t));
      if futs[t].coro != Fresh {
        return Raises(BadCoroState);
      }
      futs := futs[t := futs[t].(st := Scheduled(cbs, handle))];
      return Ok;
    }

    /** The loop enters a handle; `_step` checks the state and resumes the coroutine. */
    method Invoke(h: HandleId) returns (r: Res)
      requires Enabled(State(), Begin(h))
      requires StepTarget(handles[h].target).Some? ==> StepTarget(handles[h].target).value < |futs|
      modifies this
      ensures (State(), r) == BeginHandle(old(State()), h)
    {
      cur, ran := Some(h), ran + [h];
      var task := StepTarget(handles[h].target);
      if task == None {
        return Ok;
      }
      var t := task.value;
      match futs[t].st {
        case Scheduled(_, _) => r := Resumes(FirstSend);
        case Running(_, w) =>
          if w >= |futs| {
            r := Resumes(StillPending);
          } else {
            // Future.__await__ goes on after its yield.
            match futs[w].st {
              case Success(v, _) => r := Resumes(Gets(v));
              case Failed(e, _) => r := Resumes(GetsError(if e.StopIteration? then RuntimeError else e));
              case _ => r := Resumes(StillPending);
            }
          }
        case Cancelling(_, _, inner) => r := Resumes(Throws(inner));
        case _ =>
          HandleInvoked();
          return Raises(ResumedFinished);
      }
      futs := futs[t := futs[t].(coro := Executing)];
    }

    /** The `finally` clause of `_step`: the task is no longer known to what it waited on. */
    method StopWaiting(t: Id)
      requires Inv(State()) && CurTask(State()) == Some(t) && t < |futs|
      modifies this
      ensures State() == CleanUp(old(State()), t)
    {
      if futs[t].st.Running? {
        CleanUpShape(State(), t);
        WaitedStateOk(State(), t);
        RemoveCallback(futs[t].st.waitingOn, StepOf(t));
      }
    }

    /** `_step` after its coroutine has yielded the future `f`. */
    method Suspend(t: Id, f: Id) returns (r: Res)
      requires Inv(State()) && CurTask(State()) == Some(t) && t < |futs| && f < |futs|
      modifies this
      ensures (State(), r) == YieldOn(old(State()), t, f)
    {
      CurTaskExecutes(State(), t);
      StopWaiting(t);
      futs := futs[t := futs[t].(coro := Suspended)];
      if f == t {
        r := Raises(AwaitsItself);
      } else {
        r := AddCallback(f, StepOf(t));
        if r == Ok {
          if futs[t].st.Success? || futs[t].st.Failed? {
            r := Raises(AssertionFailed);
          } else if futs[t].coro != Suspended {
            r := Raises(BadCoroState);
          } else {
            futs := futs[t := futs[t].(st := Running(futs[t].st.cbs, f))];
          }
        }
      }
      HandleInvoked();
    }

    /** `_step` after its coroutine has returned or raised. */
    method FinishTask(t: Id, out: Outcome, order: seq<Cb>) returns (r: Res)
      requires Inv(State()) && CurTask(State()) == Some(t) && t < |futs|
      requires !futs[t].st.Done() ==> Enumerates(order, futs[t].st.cbs)
      modifies this
      ensures (State(), r) == FinishStep(old(State()), t, out, order)
    {
      futs := futs[t := futs[t].(coro := Closed)];
      r := SetTaskResult(t, out, order);
      HandleInvoked();
    }

    // ---------- Any label, and any run ----------

    method Do(e: Label) returns (r: Res)
      requires Inv(State()) && Acyclic(State()) && Enabled(State(), e)
      modifies this
      ensures (State(), r) == Step(old(State()), e)
      ensures Inv(State()) && Acyclic(State()) && !IsGuard(r)
    {
      EveryStepGood(State(), e);
      StepAcyclic(State(), e);
      match e {
        case NewFuture =>
          futs, r := futs + [Fut(Pending({}), NoCoro)], Ok;
        case NewTask =>
          futs, r := futs + [Fut(Created({}), Fresh)], Ok;
        case Schedule(t) =>
          r := ScheduleFirstStep(t);
        case AddCb(f, k) =>
          r := AddCallback(f, User(k));
        case RemoveCb(f, k) =>
          assert StateOk(State(), f);
          RemoveCallback(f, User(k));
          r := Ok;
        case SetResult(f, out, order) =>
          r := SetPromiseResult(f, out, order);
        case Cancel(f, c, order) =>
          r := CancelAny(f, c, order);
        case Begin(h) =>
          assert HandleOk(State(), h);
          r := Invoke(h);
        case EndYield(f) =>
          var t := CurTask(Sys(futs, handles, cur, [])).value;
          r := Suspend(t, f);
        case EndStep(out, order) =>
          var t := CurTask(Sys(futs, handles, cur, [])).value;
          r := FinishTask(t, out, order);
        case EndCallback =>
          HandleInvoked();
          r := Ok;
        case CallSoon(k) =>
          var h := CallSoon(Plain(k));
          r := Ok;
        case CancelHandle(h) =>
          CancelHandle(h);
          r := Ok;
      }
    }

    method CancelAny(f: Id, c: Exc, order: seq<Cb>) returns (r: Res)
      requires Inv(State()) && Acyclic(State()) && Enabled(State(), Label.Cancel(f, c, order))
      modifies this
      ensures (State(), r) == Step(old(State()), Label.Cancel(f, c, order))
    {
      ghost var s := State();
      assert Halting(s, f);
      ghost var n: nat :| Halts(s, f, n) && LeafOf(s, f) == Leaf(s, f, n);
      LeafOfIsLast(s, f);
      r := Cancel(f, c, order, n);
    }

    /** A whole run: the results seen by the callers, in order. */
    method Drive(es: seq<Label>) returns (rs: seq<Res>)
      requires Inv(State()) && Acyclic(State()) && IsRun(State(), es)
      modifies this
      ensures State() == After(old(State()), es) && rs == Results(old(State()), es)
    {
      rs := [];
      ghost var s0 := State();
      for k := 0 to |es|
        invariant Inv(State()) && Acyclic(State())
        invariant IsRun(State(), es[k..]) && After(State(), es[k..]) == After(s0, es)
        invariant rs + Results(State(), es[k..]) == Results(s0, es)
      {
        UnrollRun(State(), es, k);
        ghost var before, rest := rs, Results(Next(State(), es[k]), es[k + 1..]);
        var r := Do(es[k]);
        rs := rs + [r];
        assert before + ([r] + rest) == rs + rest;
      }
    }
  }

  lemma UnrollRun(s: Sys, es: seq<Label>, k: nat)
    requires k < |es| && IsRun(s, es[k..])
    ensures Enabled(s, es[k]) && IsRun(Next(s, es[k]), es[k + 1..])
    ensures After(s, es[k..]) == After(Next(s, es[k]), es[k + 1..])
    ensures Results(s, es[k..]) == [Step(s, es[k]).1] + Results(Next(s, es[k]), es[k + 1..])
  {
    assert es[k..][0] == es[k] && es[k..][1..] == es[k + 1..];
  }
}
