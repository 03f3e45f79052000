/**
 Result callbacks: what every label does to one that a user has registered, and how often the loop
 calls it.
 */
module Callbacks {
  import opened Wrappers
  import opened FutureMachine
  import opened WakeUps
  import opened Reachability

  /** The user callback `k` is registered with future `f`, or scheduled by it. */
  predicate HasUser(s: Sys, f: Id, k: nat)
    requires f < |s.futs|
  {
    if s.futs[f].st.Done() then User(k) in s.futs[f].st.sched else User(k) in s.futs[f].st.cbs
  }

  /** Registered, and if already scheduled then with a handle that nobody has cancelled. */
  predicate Armed(s: Sys, f: Id, k: nat) {
    && f < |s.futs|
    && HasUser(s, f, k)
    && (s.futs[f].st.Done() ==>
          && s.futs[f].st.sched[User(k)] < |s.handles|
          && !s.handles[s.futs[f].st.sched[User(k)]].cancelled)
  }

  /** What one label does to the registration and to the handle of a user callback. */
  ghost predicate KeepsUser(s: Sys, e: Label, s': Sys, f: Id, k: nat) {
    && f < |s.futs| <= |s'.futs|
    && (HasUser(s', f, k) <==> (HasUser(s, f, k) && e != RemoveCb(f, k)) || (e == AddCb(f, k) && !s.futs[f].st.Done()))
    && (s.futs[f].st.Done() ==> s'.futs[f].st.Done())
    && (Armed(s, f, k) && e != RemoveCb(f, k) ==> Armed(s', f, k))
  }

  lemma KickKeepsUser(s: Sys, e: Label, s': Sys, t: Id, f: Id, k: nat)
    requires Inv(s) && Kicks(s, s', t) && f < |s.futs| && !e.AddCb? && !e.RemoveCb?
    ensures KeepsUser(s, e, s', f, k)
  {
    WaitedStateOk(s, t);
    assert StateOk(s, f);
  }

  lemma SettleKeepsUser(s: Sys, e: Label, s': Sys, g: Id, order: seq<Cb>, left: bool, f: Id, k: nat)
    requires Inv(s) && MaySettle(s, g, order, left) && Settles(s, s', g, order, left)
    requires f < |s.futs| && !e.AddCb? && !e.RemoveCb?
    ensures KeepsUser(s, e, s', f, k)
  {
    assert StateOk(s, f);
    SchedOfIndex(order, |s.handles|);
    if f == g && HasUser(s, f, k) {
      var j :| 0 <= j < |order| && order[j] == User(k);
      assert s'.handles[|s.handles| + j] == Handle(Callback(order[j], f), false, false);
    }
  }

  lemma YieldKeepsUser(s: Sys, e: Label, s': Sys, t: Id, g: Id, f: Id, k: nat)
    requires Inv(s) && CurTask(s) == Some(t) && Yields(s, s', t, g) && f < |s.futs| && !e.AddCb? && !e.RemoveCb?
    ensures KeepsUser(s, e, s', f, k)
  {
    assert StateOk(s, f);
  }

  lemma CancelKeepsUser(s: Sys, e: Label, f: Id, k: nat)
    requires Inv(s) && Acyclic(s) && Enabled(s, e) && e.Cancel? && f < |s.futs|
    ensures KeepsUser(s, e, Next(s, e), f, k)
  {
    assert Halting(s, e.fut);
    LeafOfIsLast(s, e.fut);
    var leaf := LeafOf(s, e.fut);
    assert StateOk(s, leaf);
    var g := s.futs[leaf];
    if !g.st.Done() && g.coro == NoCoro {
      SettleKeepsUser(s, e, Next(s, e), leaf, e.order, false, f, k);
    } else if !g.st.Done() && g.coro != Executing && !g.st.Cancelling? {
      CancelTaskShape(s, leaf, e.c);
      KickKeepsUser(s, e, Next(s, e), leaf, f, k);
    }
  }

  lemma EditKeepsUser(s: Sys, e: Label, f: Id, k: nat)
    requires Inv(s) && Enabled(s, e) && (e.AddCb? || e.RemoveCb?) && f < |s.futs|
    ensures KeepsUser(s, e, Next(s, e), f, k)
  {
    assert StateOk(s, f);
    assert StateOk(s, e.fut);
  }

  lemma PromiseKeepsUser(s: Sys, e: Label, f: Id, k: nat)
    requires Inv(s) && Enabled(s, e) && e.SetResult? && f < |s.futs|
    ensures KeepsUser(s, e, Next(s, e), f, k)
  {
    assert StateOk(s, e.fut);
    if Next(s, e) != s { SettleKeepsUser(s, e, Next(s, e), e.fut, e.order, false, f, k); }
  }

  lemma ScheduleKeepsUser(s: Sys, e: Label, f: Id, k: nat)
    requires Inv(s) && Enabled(s, e) && e.Schedule? && f < |s.futs|
    ensures KeepsUser(s, e, Next(s, e), f, k)
  {
    assert StateOk(s, e.task);
    if s.futs[e.task].st.Created? { KickKeepsUser(s, e, Next(s, e), e.task, f, k); }
  }

  lemma StepKeepsUser(s: Sys, e: Label, f: Id, k: nat)
    requires Inv(s) && Acyclic(s) && Enabled(s, e) && f < |s.futs|
    ensures KeepsUser(s, e, Next(s, e), f, k)
  {
    match e
    case AddCb(_, _) => EditKeepsUser(s, e, f, k);
    case RemoveCb(_, _) => EditKeepsUser(s, e, f, k);
    case Cancel(_, _, _) => CancelKeepsUser(s, e, f, k);
    case SetResult(_, _, _) => PromiseKeepsUser(s, e, f, k);
    case EndStep(_, order) => SettleKeepsUser(s, e, Next(s, e), CurTask(s).value, order, true, f, k);
    case EndYield(g) =>
      GoodYield(s, e);
      YieldKeepsUser(s, e, Next(s, e), CurTask(s).value, g, f, k);
    case Schedule(_) => ScheduleKeepsUser(s, e, f, k);
    case _ => OtherKeepsUser(s, e, f, k);
  }

  lemma OtherKeepsUser(s: Sys, e: Label, f: Id, k: nat)
    requires Inv(s) && Enabled(s, e) && f < |s.futs|
    requires e.NewFuture? || e.NewTask? || e.Begin? || e.EndCallback? || e.CallSoon? || e.CancelHandle?
    ensures KeepsUser(s, e, Next(s, e), f, k)
  {
    assert StateOk(s, f);
  }

  lemma NewFutureBare(s: Sys, e: Label, f: Id)
    requires Inv(s) && Acyclic(s) && Enabled(s, e) && |s.futs| <= f < |Next(s, e).futs|
    ensures Next(s, e).futs[f].st == Pending({}) || Next(s, e).futs[f].st == Created({})
  {
    match e
    case Cancel(_, _, order) =>
      assert Halting(s, e.fut);
      LeafOfIsLast(s, e.fut);
      GoodCancelLeaf(s, LeafOf(s, e.fut), e.c, order);
    case EndYield(_) => GoodYield(s, e);
    case EndStep(out, order) => StepEnds(s, CurTask(s).value, CurTask(s).value, out, order);
    case _ =>
  }

  // ---------- Whole runs ----------

  lemma {:induction false} ArmedRun(s: Sys, es: seq<Label>, f: Id, k: nat)
    requires Inv(s) && Acyclic(s) && IsRun(s, es) && Armed(s, f, k)
    requires RemoveCb(f, k) !in es
    ensures Armed(After(s, es), f, k)
    decreases |es|
  {
    if es != [] {
      StepKeepsUser(s, es[0], f, k);
      EveryStepGood(s, es[0]);
      StepAcyclic(s, es[0]);
      ArmedRun(Next(s, es[0]), es[1..], f, k);
    }
  }

  /** How often the loop has called user callback `k` with future `f`. */
  function Calls(s: Sys, f: Id, k: nat): nat {
    CallsIn(s.handles, s.ran, f, k)
  }

  function CallsIn(handles: seq<Handle>, ran: seq<HandleId>, f: Id, k: nat): nat {
    if ran == [] then 0
    else
      var h := ran[|ran| - 1];
      CallsIn(handles, ran[..|ran| - 1], f, k)
      + (if h < |handles| && handles[h].target == Callback(User(k), f) then 1 else 0)
  }

  lemma {:induction false} CallsOfOneHandle(handles: seq<Handle>, ran: seq<HandleId>, f: Id, k: nat, h: HandleId)
    requires NoDup(ran) && h < |handles|
    requires forall g: HandleId | g < |handles| :: handles[g].target == Callback(User(k), f) <==> g == h
    ensures CallsIn(handles, ran, f, k) == if h in ran then 1 else 0
  {
    if ran != [] {
      CallsOfOneHandle(handles, ran[..|ran| - 1], f, k, h);
      assert ran == ran[..|ran| - 1] + [ran[|ran| - 1]];
    }
  }

  lemma {:induction false} NoHandleNoCalls(handles: seq<Handle>, ran: seq<HandleId>, f: Id, k: nat)
    requires forall g: HandleId | g < |handles| :: handles[g].target != Callback(User(k), f)
    ensures CallsIn(handles, ran, f, k) == 0
  {
    if ran != [] { NoHandleNoCalls(handles, ran[..|ran| - 1], f, k); }
  }

  lemma ArmedCalls(s: Sys, f: Id, k: nat)
    requires Inv(s) && Armed(s, f, k)
    ensures if !s.futs[f].st.Done() then Calls(s, f, k) == 0
            else var h := s.futs[f].st.sched[User(k)];
              && s.handles[h].target == Callback(User(k), f)
              && Calls(s, f, k) == if Live(s, h) then 0 else 1
  {
    assert StateOk(s, f);
    if s.futs[f].st.Done() {
      var h := s.futs[f].st.sched[User(k)];
      forall g: HandleId | g < |s.handles|
        ensures s.handles[g].target == Callback(User(k), f) <==> g == h
      {
        if g < h { assert s.handles[g].target.Callback? ==> s.handles[g].target != s.handles[h].target; }
      }
      CallsOfOneHandle(s.handles, s.ran, f, k, h);
    } else {
      forall g: HandleId | g < |s.handles| ensures s.handles[g].target != Callback(User(k), f) {
        assert HandleOk(s, g);
      }
      NoHandleNoCalls(s.handles, s.ran, f, k);
    }
  }

  // ---------- Removed callbacks ----------

  lemma {:induction false} CallsExtend(handles: seq<Handle>, handles': seq<Handle>, ran: seq<HandleId>, f: Id, k: nat)
    requires |handles| <= |handles'|
    requires forall h: HandleId | h < |handles| :: handles'[h].target == handles[h].target
    requires forall i | 0 <= i < |ran| :: ran[i] < |handles|
    ensures CallsIn(handles', ran, f, k) == CallsIn(handles, ran, f, k)
  {
    if ran != [] {
      CallsExtend(handles, handles', ran[..|ran| - 1], f, k);
    }
  }

  /** Handles are never reassigned, and only `Begin` adds a call. */
  ghost predicate RanExtends(s: Sys, e: Label, s': Sys) {
    && |s.handles| <= |s'.handles|
    && (forall h: HandleId | h < |s.handles| :: s'.handles[h].target == s.handles[h].target)
    && s'.ran == (if e.Begin? then s.ran + [e.handle] else s.ran)
  }

  lemma CancelRanExtends(s: Sys, e: Label)
    requires Inv(s) && Acyclic(s) && Enabled(s, e) && e.Cancel?
    ensures RanExtends(s, e, Next(s, e))
  {
    assert Halting(s, e.fut);
    LeafOfIsLast(s, e.fut);
    var leaf := LeafOf(s, e.fut);
    assert StateOk(s, leaf);
    if !s.futs[leaf].st.Done() && s.futs[leaf].coro != NoCoro && s.futs[leaf].coro != Executing
       && !s.futs[leaf].st.Cancelling? {
      CancelTaskShape(s, leaf, e.c);
    }
  }

  lemma StepRanExtends(s: Sys, e: Label)
    requires Inv(s) && Acyclic(s) && Enabled(s, e)
    ensures RanExtends(s, e, Next(s, e))
  {
    match e
    case Cancel(_, _, _) => CancelRanExtends(s, e);
    case EndYield(_) => GoodYield(s, e);
    case _ =>
  }

  lemma {:induction false} RemovedRun(s: Sys, es: seq<Label>, f: Id, k: nat)
    requires Inv(s) && Acyclic(s) && IsRun(s, es) && f < |s.futs| && !HasUser(s, f, k)
    requires AddCb(f, k) !in es
    ensures f < |After(s, es).futs| && !HasUser(After(s, es), f, k)
    ensures Calls(After(s, es), f, k) == Calls(s, f, k)
    decreases |es|
  {
    if es != [] {
      var e, s' := es[0], Next(s, es[0]);
      StepKeepsUser(s, e, f, k);
      StepRanExtends(s, e);
      CallsExtend(s.handles, s'.handles, s.ran, f, k);
      if e.Begin? {
        assert HandleOk(s, e.handle);
        assert s'.ran[..|s'.ran| - 1] == s.ran;
      }
      EveryStepGood(s, e);
      StepAcyclic(s, e);
      RemovedRun(s', es[1..], f, k);
    }
  }
}
