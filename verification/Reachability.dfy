/**
 Every label keeps the invariant and the absence of wait cycles, so both hold in every reachable
 state.
 */
module Reachability {
  import opened Wrappers
  import opened FutureMachine
  import opened WakeUps

  // ---------- Chains of waits ----------

  lemma {:induction false} LeafIsLast(s: Sys, i: Id, n: nat)
    requires Halts(s, i, n) && i < |s.futs|
    ensures Leaf(s, i, n) < |s.futs| && Follow(s, Leaf(s, i, n)) == None
    decreases n
  {
    if Follow(s, i).Some? { LeafIsLast(s, Follow(s, i).value, n - 1); }
  }

  lemma {:induction false} LeafUnique(s: Sys, i: Id, m: nat, n: nat)
    requires Halts(s, i, m) && Halts(s, i, n)
    ensures Leaf(s, i, m) == Leaf(s, i, n)
    decreases m
  {
    if Follow(s, i).Some? { LeafUnique(s, Follow(s, i).value, m - 1, n - 1); }
  }

  lemma LeafOfIsLast(s: Sys, i: Id)
    requires Halting(s, i) && i < |s.futs|
    ensures LeafOf(s, i) < |s.futs| && Follow(s, LeafOf(s, i)) == None
  {
    var n: nat :| Halts(s, i, n);
    LeafIsLast(s, i, n);
    forall m: nat | Halts(s, i, m) ensures Leaf(s, i, m) == Leaf(s, i, n) { LeafUnique(s, i, m, n); }
  }

  /** A step that opens no new wait keeps every chain finite. */
  lemma {:induction false} FewerWaitsHalt(s: Sys, s': Sys, i: Id, n: nat)
    requires forall j: Id :: Follow(s', j) == None || Follow(s', j) == Follow(s, j)
    requires Halts(s, i, n)
    ensures Halts(s', i, n)
    decreases n
  {
    if Follow(s', i).Some? { FewerWaitsHalt(s, s', Follow(s', i).value, n - 1); }
  }

  lemma FewerWaitsAcyclic(s: Sys, s': Sys)
    requires Acyclic(s)
    requires forall j: Id :: Follow(s', j) == None || Follow(s', j) == Follow(s, j)
    ensures Acyclic(s')
  {
    forall i: Id | i < |s'.futs| ensures Halting(s', i) {
      if i < |s.futs| {
        assert Halting(s, i);
        var n: nat :| Halts(s, i, n);
        FewerWaitsHalt(s, s', i, n);
      } else {
        assert Halts(s', i, 0);
      }
    }
  }

  /** A chain that does not meet `t` is not changed by what `t` waits on. */
  lemma {:induction false} DetourHalts(s: Sys, s': Sys, t: Id, i: Id, n: nat)
    requires forall j: Id | j != t :: Follow(s', j) == None || Follow(s', j) == Follow(s, j)
    requires Halts(s, i, n) && forall k: nat :: !Reaches(s, i, t, k)
    ensures Halts(s', i, n)
    decreases n
  {
    assert !Reaches(s, i, t, 0);
    if Follow(s', i).Some? {
      var w := Follow(s, i).value;
      forall k: nat ensures !Reaches(s, w, t, k) { assert !Reaches(s, i, t, k + 1); }
      DetourHalts(s, s', t, w, n - 1);
    }
  }

  lemma {:induction false} NewWaitHalts(s: Sys, s': Sys, t: Id, f: Id, m: nat, i: Id, n: nat)
    requires forall j: Id | j != t :: Follow(s', j) == None || Follow(s', j) == Follow(s, j)
    requires Follow(s', t) == Some(f) && Halts(s', f, m)
    requires Halts(s, i, n)
    ensures Halts(s', i, n + m + 1)
    decreases n
  {
    if i == t {
      MoreFuel(s', f, m, n + m);
    } else if Follow(s', i).Some? {
      NewWaitHalts(s, s', t, f, m, Follow(s', i).value, n - 1);
    }
  }

  lemma {:induction false} MoreFuel(s: Sys, i: Id, m: nat, n: nat)
    requires Halts(s, i, m) && m <= n
    ensures Halts(s, i, n)
    decreases m
  {
    if Follow(s, i).Some? { MoreFuel(s, Follow(s, i).value, m - 1, n - 1); }
  }

  /** Waiting on a future whose chain does not lead back keeps the wait graph acyclic. */
  lemma NewWaitAcyclic(s: Sys, s': Sys, t: Id, f: Id)
    requires Acyclic(s) && f < |s.futs| == |s'.futs|
    requires forall j: Id | j != t :: Follow(s', j) == None || Follow(s', j) == Follow(s, j)
    requires Follow(s', t) == Some(f)
    requires forall n: nat :: !Reaches(s, f, t, n)
    ensures Acyclic(s')
  {
    assert Halting(s, f);
    var m: nat :| Halts(s, f, m);
    DetourHalts(s, s', t, f, m);
    forall i: Id | i < |s'.futs| ensures Halting(s', i) {
      assert Halting(s, i);
      var n: nat :| Halts(s, i, n);
      NewWaitHalts(s, s', t, f, m, i, n);
    }
  }

  // ---------- One label ----------

  /** The state of a future apart from its callbacks and handles. */
  predicate SameCore(a: State, b: State) {
    match a
    case Pending(_) => b.Pending?
    case Created(_) => b.Created?
    case Scheduled(_, _) => b.Scheduled?
    case Cancelling(_, _, e) => b.Cancelling? && b.inner == e
    case Running(_, w) => b.Running? && b.waitingOn == w
    case Success(v, _) => b.Success? && b.result == v
    case Failed(e, _) => b.Failed? && b.exc == e
  }

  predicate SameFut(a: Fut, b: Fut) {
    a.coro == b.coro && SameCore(a.st, b.st)
  }

  /** The one future that a label may move to another state, and the task it resumes. */
  ghost function Moves(s: Sys, e: Label): Option<Id>
    requires Enabled(s, e)
  {
    match e
    case Schedule(t) => Some(t)
    case SetResult(f, _, _) => Some(f)
    case Cancel(f, _, _) => if Halting(s, f) then Some(LeafOf(s, f)) else None
    case Begin(h) => StepTarget(s.handles[h].target)
    case EndYield(_) => CurTask(s)
    case EndStep(_, _) => CurTask(s)
    case _ => None
  }

  /**
   A label keeps the invariant, moves no future but `Moves`, and trips no guard. A raised error
   leaves the state as it was.
   */
  ghost predicate GoodStep(s: Sys, e: Label)
    requires Enabled(s, e)
  {
    var s' := Next(s, e);
    && Inv(s')
    && |s.futs| <= |s'.futs| && |s.handles| <= |s'.handles|
    && (forall i: Id | i < |s.futs| && Moves(s, e) != Some(i) :: SameFut(s.futs[i], s'.futs[i]))
    && (forall i: Id | i < |s.futs| && s.futs[i].st.Done() :: SameFut(s.futs[i], s'.futs[i]))
    && !IsGuard(Step(s, e).1)
    && (Step(s, e).1.Raises? ==> s' == s)
  }

  lemma GoodCreate(s: Sys, e: Label)
    requires Inv(s) && Enabled(s, e) && (e.NewFuture? || e.NewTask? || e.CallSoon? || e.CancelHandle? || e.EndCallback?)
    ensures GoodStep(s, e)
  {
    match e
    case NewFuture => InvNew(s, Fut(Pending({}), NoCoro));
    case NewTask => InvNew(s, Fut(Created({}), Fresh));
    case CallSoon(k) => InvEnqueuePlain(s, k);
    case CancelHandle(h) => InvCancelPlain(s, h);
    case EndCallback => InvLeave(s);
  }

  lemma GoodCallbacks(s: Sys, e: Label)
    requires Inv(s) && Enabled(s, e) && (e.AddCb? || e.RemoveCb?)
    ensures GoodStep(s, e)
  {
    match e
    case AddCb(f, k) => InvAddUser(s, f, k);
    case RemoveCb(f, k) => InvRemoveUser(s, f, k);
  }

  lemma GoodSchedule(s: Sys, e: Label)
    requires Inv(s) && Enabled(s, e) && e.Schedule?
    ensures GoodStep(s, e)
  {
    assert StateOk(s, e.task);
    if s.futs[e.task].st.Created? { InvSchedule(s, e.task); }
  }

  lemma GoodSetResult(s: Sys, e: Label)
    requires Inv(s) && Enabled(s, e) && e.SetResult?
    ensures GoodStep(s, e)
  {
    assert StateOk(s, e.fut);
    if s.futs[e.fut].st.Pending? { InvFinish(s, e.fut, e.out, e.order); }
  }

  lemma GoodCancelLeaf(s: Sys, leaf: Id, c: Exc, order: seq<Cb>)
    requires Inv(s) && leaf < |s.futs| && Follow(s, leaf) == None
    requires c.Cancelled? && EnumeratesIfPending(s, leaf, order)
    ensures var r := CancelLeaf(s, leaf, c, order);
            && Inv(r.0)
            && |s.futs| == |r.0.futs| && |s.handles| <= |r.0.handles|
            && (forall i: Id | i < |s.futs| && i != leaf :: SameFut(s.futs[i], r.0.futs[i]))
            && (s.futs[leaf].st.Done() ==> r.0 == s)
            && (r.0 == s || !r.0.futs[leaf].st.Running?)
            && !IsGuard(r.1)
            && (r.1.Raises? ==> r.0 == s)
  {
    assert StateOk(s, leaf);
    var f := s.futs[leaf];
    if !f.st.Done() && f.coro == NoCoro {
      InvFinish(s, leaf, Raised(c), order);
    } else if !f.st.Done() && f.coro != Executing && !f.st.Cancelling? {
      CancelTaskShape(s, leaf, c);
      InvKick(s, CancelLeaf(s, leaf, c, order).0, leaf);
    }
  }

  lemma GoodCancel(s: Sys, e: Label)
    requires Inv(s) && Acyclic(s) && Enabled(s, e) && e.Cancel?
    ensures GoodStep(s, e)
  {
    assert Halting(s, e.fut);
    LeafOfIsLast(s, e.fut);
    GoodCancelLeaf(s, LeafOf(s, e.fut), e.c, e.order);
  }

  lemma GoodBegin(s: Sys, e: Label)
    requires Inv(s) && Enabled(s, e) && e.Begin?
    ensures GoodStep(s, e)
  {
    InvBegin(s, e.handle);
    assert HandleOk(s, e.handle);
    var t := StepTarget(s.handles[e.handle].target);
    if t.Some? { WaitedStateOk(s, t.value); }
  }

  lemma GoodEndStep(s: Sys, e: Label)
    requires Inv(s) && Enabled(s, e) && e.EndStep?
    ensures GoodStep(s, e)
  {
    InvFinishStep(s, CurTask(s).value, e.out, e.order);
  }

  lemma YieldsMoveOne(s: Sys, s': Sys, t: Id, f: Id)
    requires Inv(s) && CurTask(s) == Some(t) && Yields(s, s', t, f)
    ensures forall i: Id | i < |s.futs| && i != t :: SameFut(s.futs[i], s'.futs[i])
    ensures forall i: Id | i < |s.futs| && s.futs[i].st.Done() :: SameFut(s.futs[i], s'.futs[i])
  {
  }

  lemma GoodYield(s: Sys, e: Label)
    requires Inv(s) && Enabled(s, e) && e.EndYield?
    ensures GoodStep(s, e) && Yields(s, Next(s, e), CurTask(s).value, e.fut)
  {
    var t, s' := CurTask(s).value, Next(s, e);
    assert s' == YieldOn(s, t, e.fut).0;
    YieldShape(s, t, e.fut);
    InvYield(s, s', t, e.fut);
    YieldsMoveOne(s, s', t, e.fut);
  }

  lemma EveryStepGood(s: Sys, e: Label)
    requires Inv(s) && Acyclic(s) && Enabled(s, e)
    ensures GoodStep(s, e)
  {
    match e
    case Schedule(_) => GoodSchedule(s, e);
    case AddCb(_, _) => GoodCallbacks(s, e);
    case RemoveCb(_, _) => GoodCallbacks(s, e);
    case SetResult(_, _, _) => GoodSetResult(s, e);
    case Cancel(_, _, _) => GoodCancel(s, e);
    case Begin(_) => GoodBegin(s, e);
    case EndYield(_) => GoodYield(s, e);
    case EndStep(_, _) => GoodEndStep(s, e);
    case _ => GoodCreate(s, e);
  }

  /** The moved future does not start to wait, unless its coroutine has just yielded. */
  lemma MovedDoesNotWait(s: Sys, e: Label, i: Id)
    requires Inv(s) && Acyclic(s) && Enabled(s, e) && !e.EndYield? && i < |Next(s, e).futs|
    requires Moves(s, e) == Some(i) || i >= |s.futs|
    ensures Next(s, e) == s || !Next(s, e).futs[i].st.Running? || Next(s, e).futs[i].coro == Executing
  {
    if e.Cancel? {
      assert Halting(s, e.fut);
      LeafOfIsLast(s, e.fut);
      GoodCancelLeaf(s, LeafOf(s, e.fut), e.c, e.order);
    } else if e.Begin? {
      assert HandleOk(s, e.handle);
    } else if i < |s.futs| {
      assert StateOk(s, i);
    }
  }

  /** A future that is not moved follows what it followed before, or nothing. */
  lemma UnmovedFollow(s: Sys, s': Sys, j: Id)
    requires Inv(s) && j < |s.futs| <= |s'.futs| && SameFut(s.futs[j], s'.futs[j])
    requires forall i: Id | i < |s.futs| && s.futs[i].st.Done() :: SameFut(s.futs[i], s'.futs[i])
    ensures Follow(s', j) == None || Follow(s', j) == Follow(s, j)
  {
    assert StateOk(s, j);
    if Follow(s', j).Some? {
      assert !s.futs[s.futs[j].st.waitingOn].st.Done();
    }
  }

  lemma NoNewWait(s: Sys, e: Label, j: Id)
    requires Inv(s) && Acyclic(s) && Enabled(s, e)
    requires !e.EndYield? || CurTask(s) != Some(j)
    ensures Follow(Next(s, e), j) == None || Follow(Next(s, e), j) == Follow(s, j)
  {
    EveryStepGood(s, e);
    var s' := Next(s, e);
    if j < |s.futs| && Moves(s, e) != Some(j) {
      UnmovedFollow(s, s', j);
    } else if j < |s'.futs| && !e.EndYield? {
      MovedDoesNotWait(s, e, j);
    } else if j < |s'.futs| {
      GoodYield(s, e);
    }
  }

  lemma StepAcyclic(s: Sys, e: Label)
    requires Inv(s) && Acyclic(s) && Enabled(s, e)
    ensures Acyclic(Next(s, e))
  {
    var s' := Next(s, e);
    forall j: Id | !e.EndYield? || CurTask(s) != Some(j)
      ensures Follow(s', j) == None || Follow(s', j) == Follow(s, j)
    {
      NoNewWait(s, e, j);
    }
    if e.EndYield? {
      GoodYield(s, e);
      NewWaitAcyclic(s, s', CurTask(s).value, e.fut);
    } else {
      FewerWaitsAcyclic(s, s');
    }
  }

  // ---------- Runs ----------

  ghost predicate Reachable(s: Sys) {
    exists es: seq<Label> :: IsRun(INIT, es) && After(INIT, es) == s
  }

  lemma {:induction false} RunKeepsInv(s: Sys, es: seq<Label>)
    requires Inv(s) && Acyclic(s) && IsRun(s, es)
    ensures Inv(After(s, es)) && Acyclic(After(s, es))
    decreases |es|
  {
    if es != [] {
      EveryStepGood(s, es[0]);
      StepAcyclic(s, es[0]);
      RunKeepsInv(Next(s, es[0]), es[1..]);
    }
  }

  lemma ReachableInv(s: Sys)
    requires Reachable(s)
    ensures Inv(s) && Acyclic(s)
  {
    var es :| IsRun(INIT, es) && After(INIT, es) == s;
    RunKeepsInv(INIT, es);
  }
}
