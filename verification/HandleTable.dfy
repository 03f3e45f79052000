/** What every label does to the table of handles, and to the handle that the loop executes. */
module HandleTable {
  import opened Wrappers
  import opened FutureMachine
  import opened WakeUps
  import opened Reachability

  predicate IsEnd(e: Label) {
    e.EndYield? || e.EndStep? || e.EndCallback?
  }

  /** Handles keep their targets, flags are not taken back, and new handles have none. */
  predicate TableGrows(a: seq<Handle>, b: seq<Handle>) {
    && |a| <= |b|
    && (forall h: HandleId | h < |a| :: b[h].target == a[h].target && (a[h].cancelled ==> b[h].cancelled))
    && (forall h: HandleId | |a| <= h < |b| :: !b[h].cancelled)
  }

  predicate OneCurrent(e: Label, cur: Option<HandleId>, cur': Option<HandleId>) {
    cur' == if e.Begin? then Some(e.handle) else if IsEnd(e) then None else cur
  }

  lemma CancelGrows(s: Sys, e: Label)
    requires Inv(s) && Acyclic(s) && Enabled(s, e) && e.Cancel?
    ensures TableGrows(s.handles, Next(s, e).handles) && Next(s, e).cur == s.cur
  {
    assert Halting(s, e.fut);
    LeafOfIsLast(s, e.fut);
    var leaf := LeafOf(s, e.fut);
    assert StateOk(s, leaf);
    if !s.futs[leaf].st.Done() && s.futs[leaf].coro != NoCoro && s.futs[leaf].coro != Executing
       && !s.futs[leaf].st.Cancelling? {
      CancelTaskShape(s, leaf, e.c);
      assert CancelLeaf(s, leaf, e.c, e.order) == CancelLeaf(s, leaf, e.c, []);
    }
  }

  lemma BeginGrows(s: Sys, e: Label)
    requires Inv(s) && Enabled(s, e) && e.Begin?
    ensures TableGrows(s.handles, Next(s, e).handles) && Next(s, e).cur == Some(e.handle)
  {
    assert HandleOk(s, e.handle);
    var t := StepTarget(s.handles[e.handle].target);
    if t.Some? { WaitedStateOk(s, t.value); }
  }

  lemma LabelGrows(s: Sys, e: Label)
    requires Inv(s) && Acyclic(s) && Enabled(s, e)
    ensures TableGrows(s.handles, Next(s, e).handles) && OneCurrent(e, s.cur, Next(s, e).cur)
    ensures e.CallSoon? ==> Next(s, e).handles == s.handles + [Handle(Plain(e.key), false, false)]
  {
    match e
    case Cancel(_, _, _) => CancelGrows(s, e);
    case Begin(_) => BeginGrows(s, e);
    case EndYield(f) => YieldGrows(s, e);
    case EndStep(_, _) => EndStepGrows(s, e);
    case RemoveCb(_, _) => RemoveGrows(s, e);
    case _ =>
  }

  lemma YieldGrows(s: Sys, e: Label)
    requires Inv(s) && Acyclic(s) && Enabled(s, e) && e.EndYield?
    ensures TableGrows(s.handles, Next(s, e).handles) && Next(s, e).cur == None
  {
    var t := CurTask(s).value;
    StepEnds(s, t, e.fut, Value(NoneValue), []);
    if s.futs[t].st.Running? { CleanUpShape(s, t); WaitedStateOk(s, t); }
  }

  lemma EndStepGrows(s: Sys, e: Label)
    requires Inv(s) && Enabled(s, e) && e.EndStep?
    ensures TableGrows(s.handles, Next(s, e).handles) && Next(s, e).cur == None
  {
    StepEnds(s, CurTask(s).value, CurTask(s).value, e.out, e.order);
  }

  lemma RemoveGrows(s: Sys, e: Label)
    requires Inv(s) && Enabled(s, e) && e.RemoveCb?
    ensures TableGrows(s.handles, Next(s, e).handles) && Next(s, e).cur == s.cur
  {
    assert StateOk(s, e.fut);
  }
}
