/**
 Cancellation: one call changes exactly one future, the last of a chain of waits, and the change
 then unwinds the whole chain.
 */
module Cancellation {
  import opened Wrappers
  import opened FutureMachine
  import opened WakeUps
  import opened Reachability

  // ---------- One atomic change at the leaf ----------

  lemma {:induction false} LeafReached(s: Sys, i: Id, n: nat)
    requires Halts(s, i, n)
    ensures Reaches(s, i, Leaf(s, i, n), n)
    decreases n
  {
    if Follow(s, i).Some? { LeafReached(s, Follow(s, i).value, n - 1); }
  }

  /** When `_cancel` raises, and what. */
  ghost predicate RaisesAt(f: Fut, c: Exc, r: Res) {
    || (f.st.Done() && r == Raises(FutureFinished))
    || (!f.st.Done() && f.coro == Executing && r == Raises(CancelledInCaller(c)))
    || (f.st.Cancelling? && f.coro != Executing && r == Raises(AlreadyCancelling))
  }

  /** The state that a successful `_cancel` leaves a future in. */
  ghost predicate CancelledAs(before: Fut, after: Fut, c: Exc) {
    && !before.st.Done() && after.coro == before.coro
    && if before.coro == NoCoro then after.st.Failed? && after.st.exc == c
       else after.st.Cancelling? && after.st.inner == c && after.st.cbs == before.st.cbs
  }

  /**
   `cancel_future` follows the unfinished futures that are waited on to the last of them. Either
   that one alone changes its state, to failed (a promise) or to cancelling (a task), or the call
   raises and nothing at all has changed. It raises exactly when that last future is finished
   (then it is the argument itself), executing, or already cancelling.
   */
  lemma CancelIsOneLeafChange(s: Sys, f: Id, c: Exc, order: seq<Cb>)
    requires Reachable(s) && Enabled(s, Cancel(f, c, order))
    ensures Halting(s, f) && LeafOf(s, f) < |s.futs| && (exists n: nat :: Reaches(s, f, LeafOf(s, f), n))
    ensures var leaf := LeafOf(s, f);
            var (s', r) := Step(s, Cancel(f, c, order));
            && |s'.futs| == |s.futs|
            && (forall i: Id | i < |s.futs| && i != leaf :: SameFut(s.futs[i], s'.futs[i]))
            && (r == Ok <==> !SameFut(s.futs[leaf], s'.futs[leaf]))
            && (r == Ok <==> CancelledAs(s.futs[leaf], s'.futs[leaf], c) && s' != s)
            && (r != Ok <==> RaisesAt(s.futs[leaf], c, r))
            && (r != Ok ==> s' == s)
            && (r == Raises(FutureFinished) ==> leaf == f)
  {
    ReachableInv(s);
    assert Halting(s, f);
    var n: nat :| Halts(s, f, n) && LeafOf(s, f) == Leaf(s, f, n);
    LeafReached(s, f, n);
    LeafOfIsLast(s, f);
    GoodCancelLeaf(s, LeafOf(s, f), c, order);
    CancelLeafCases(s, LeafOf(s, f), c, order);
    LeafFinished(s, f, n);
  }

  lemma CancelLeafCases(s: Sys, leaf: Id, c: Exc, order: seq<Cb>)
    requires Inv(s) && leaf < |s.futs| && Follow(s, leaf) == None && c.Cancelled?
    requires EnumeratesIfPending(s, leaf, order)
    ensures var (s', r) := CancelLeaf(s, leaf, c, order);
            && |s'.futs| == |s.futs|
            && (if r == Ok then CancelledAs(s.futs[leaf], s'.futs[leaf], c) && !SameFut(s.futs[leaf], s'.futs[leaf])
                else s' == s && RaisesAt(s.futs[leaf], c, r))
            && (RaisesAt(s.futs[leaf], c, r) ==> r != Ok)
  {
    assert StateOk(s, leaf);
    var f := s.futs[leaf];
    if !f.st.Done() && f.coro != NoCoro && f.coro != Executing && !f.st.Cancelling? {
      CancelTaskShape(s, leaf, c);
      assert CancelLeaf(s, leaf, c, order) == CancelLeaf(s, leaf, c, []);
      WaitedStateOk(s, leaf);
      assert CancelLeaf(s, leaf, c, order).0.futs[leaf].st.Cancelling?;
    }
  }

  /** Only unfinished futures are followed. */
  lemma {:induction false} LeafFinished(s: Sys, i: Id, n: nat)
    requires Halts(s, i, n) && i < |s.futs|
    ensures Leaf(s, i, n) < |s.futs|
    ensures Leaf(s, i, n) == i || !s.futs[Leaf(s, i, n)].st.Done()
    decreases n
  {
    if Follow(s, i).Some? { LeafFinished(s, Follow(s, i).value, n - 1); }
  }

  // ---------- Unwinding a chain ----------

  /** Each future of `chain` but the last is a suspended task that waits on the next. */
  predicate IsChain(s: Sys, chain: seq<Id>) {
    && chain != []
    && (forall j | 0 <= j < |chain| :: chain[j] < |s.futs|)
    && (forall j | 0 <= j < |chain| - 1 :: Follow(s, chain[j]) == Some(chain[j + 1]))
    && Follow(s, chain[|chain| - 1]) == None
  }

  lemma {:induction false} ChainHalts(s: Sys, chain: seq<Id>)
    requires IsChain(s, chain)
    ensures Halts(s, chain[0], |chain| - 1) && Leaf(s, chain[0], |chain| - 1) == chain[|chain| - 1]
    decreases |chain|
  {
    if |chain| > 1 {
      assert forall j | 0 <= j < |chain| - 1 :: chain[1..][j] == chain[j + 1];
      ChainHalts(s, chain[1..]);
    }
  }

  /** The exception the executing coroutine of `t` was resumed with. */
  function ResumedWith(s: Sys, t: Id): Option<Exc>
    requires t < |s.futs|
  {
    match StepDelivery(s, t)
    case Resumes(GetsError(x)) => Some(x)
    case Resumes(Throws(x)) => Some(x)
    case _ => None
  }

  /** No coroutine of the chain catches the exception it is resumed with. Anything else may happen. */
  ghost predicate Uncaught(s: Sys, e: Label, chain: seq<Id>)
    requires Enabled(s, e)
  {
    && (e.EndYield? && CurTask(s).value in chain ==> ResumedWith(s, CurTask(s).value) == None)
    && (e.EndStep? && CurTask(s).value in chain && ResumedWith(s, CurTask(s).value).Some?
        ==> e.out == Raised(ResumedWith(s, CurTask(s).value).value))
  }

  /** And a further cancellation that reaches the chain, and succeeds, is one of `cs`. */
  ghost predicate LetsThrough(s: Sys, e: Label, chain: seq<Id>, cs: set<Exc>)
    requires Enabled(s, e)
  {
    && Uncaught(s, e, chain)
    && (e.Cancel? && Halting(s, e.fut) && LeafOf(s, e.fut) in chain && Step(s, e).1 == Ok ==> e.c in cs)
  }

  ghost predicate UncaughtRun(s: Sys, es: seq<Label>, chain: seq<Id>)
    requires IsRun(s, es)
    decreases |es|
  {
    es == [] || (Uncaught(s, es[0], chain) && UncaughtRun(Next(s, es[0]), es[1..], chain))
  }

  ghost predicate LetsThroughRun(s: Sys, es: seq<Label>, chain: seq<Id>, cs: set<Exc>)
    requires IsRun(s, es)
    decreases |es|
  {
    es == [] || (LetsThrough(s, es[0], chain, cs) && LetsThroughRun(Next(s, es[0]), es[1..], chain, cs))
  }

  /** The cancellations that the labels ask for. */
  function Requested(es: seq<Label>): set<Exc> {
    set e <- es | e.Cancel? :: e.c
  }

  lemma {:induction false} OnlyRequested(s: Sys, es: seq<Label>, chain: seq<Id>, cs: set<Exc>)
    requires IsRun(s, es) && UncaughtRun(s, es, chain) && Requested(es) <= cs
    ensures LetsThroughRun(s, es, chain, cs)
    decreases |es|
  {
    if es != [] {
      assert forall e <- es[1..] :: e in es;
      assert es[0] in es && (es[0].Cancel? ==> es[0].c in Requested(es));
      OnlyRequested(Next(s, es[0]), es[1..], chain, cs);
    }
  }

  ghost predicate FailedWith(s: Sys, i: Id, cs: set<Exc>) {
    i < |s.futs| && s.futs[i].st.Failed? && s.futs[i].st.exc in cs
  }

  ghost predicate AllFailed(s: Sys, chain: seq<Id>, cs: set<Exc>) {
    forall i <- chain :: FailedWith(s, i, cs)
  }

  /** The task is about to be resumed with an exception of `cs`, thrown or from the failed `w`. */
  ghost predicate Woken(f: Fut, w: Option<Id>, cs: set<Exc>) {
    && f.coro != NoCoro
    && (|| (f.st.Cancelling? && f.st.inner in cs)
        || (f.st.Running? && w == Some(f.st.waitingOn)))
  }

  /** The `n` first tasks of the chain still have to fail; the last of them is being woken. */
  ghost predicate Unwinding(s: Sys, chain: seq<Id>, cs: set<Exc>, n: nat) {
    && n <= |chain|
    && (forall c <- cs :: c.Cancelled?)
    && (forall j | 0 <= j < |chain| :: chain[j] < |s.futs|)
    && (forall j | n <= j < |chain| :: FailedWith(s, chain[j], cs))
    && (forall j | 0 <= j < n - 1 :: IsSuspendedOn(s, chain[j], chain[j + 1]))
    && (n > 0 ==> Woken(s.futs[chain[n - 1]], if n < |chain| then Some(chain[n]) else None, cs))
  }

  predicate IsSuspendedOn(s: Sys, t: Id, w: Id)
    requires t < |s.futs|
  {
    s.futs[t].st.Running? && s.futs[t].st.waitingOn == w && s.futs[t].coro == Suspended
  }

  lemma ChainCancelled(s: Sys, chain: seq<Id>, c: Exc, order: seq<Cb>)
    requires IsChain(s, chain) && Enabled(s, Cancel(chain[0], c, order))
    ensures Step(s, Cancel(chain[0], c, order)) == CancelLeaf(s, chain[|chain| - 1], c, order)
    ensures EnumeratesIfPending(s, chain[|chain| - 1], order)
  {
    ChainHalts(s, chain);
    assert Halting(s, chain[0]);
    var n: nat :| Halts(s, chain[0], n) && LeafOf(s, chain[0]) == Leaf(s, chain[0], n);
    LeafUnique(s, chain[0], n, |chain| - 1);
  }

  /** The number of tasks in the chain; its end may be a plain future. */
  function Tasks(s: Sys, chain: seq<Id>): nat
    requires chain != [] && chain[|chain| - 1] < |s.futs|
  {
    if s.futs[chain[|chain| - 1]].coro == NoCoro then |chain| - 1 else |chain|
  }

  lemma CancelStartsUnwinding(s: Sys, chain: seq<Id>, c: Exc, order: seq<Cb>)
    requires Inv(s) && Acyclic(s) && IsChain(s, chain)
    requires Enabled(s, Cancel(chain[0], c, order)) && Step(s, Cancel(chain[0], c, order)).1 == Ok
    ensures var s' := Next(s, Cancel(chain[0], c, order));
            Unwinding(s', chain, {c}, Tasks(s, chain))
  {
    var leaf := chain[|chain| - 1];
    ChainCancelled(s, chain, c, order);
    CancelLeafCases(s, leaf, c, order);
    GoodCancelLeaf(s, leaf, c, order);
    var s' := CancelLeaf(s, leaf, c, order).0;
    forall j | 0 <= j < |chain| - 1 ensures IsSuspendedOn(s', chain[j], chain[j + 1]) {
      assert Follow(s, chain[j]) == Some(chain[j + 1]);
      assert StateOk(s, chain[j]);
      assert SameFut(s.futs[chain[j]], s'.futs[chain[j]]);
    }
  }

  /** A task that waits on an unfinished future is neither resumed nor executing. */
  lemma SuspendedNotResumed(s: Sys, e: Label, t: Id, w: Id)
    requires Inv(s) && Enabled(s, e)
    requires t < |s.futs| && w < |s.futs| && IsSuspendedOn(s, t, w) && !s.futs[w].st.Done()
    ensures CurTask(s) != Some(t)
    ensures e.Begin? ==> StepTarget(s.handles[e.handle].target) != Some(t)
  {
    if s.cur.Some? { assert HandleOk(s, s.cur.value); }
    if e.Begin? { assert HandleOk(s, e.handle); }
  }

  /** A task of the chain other than the head keeps its state, and is not in the middle of a step. */
  lemma ChainTaskKept(s: Sys, e: Label, chain: seq<Id>, cs: set<Exc>, n: nat, j: nat)
    requires Inv(s) && Acyclic(s) && Enabled(s, e)
    requires Unwinding(s, chain, cs, n) && j < |chain| && j + 1 != n
    ensures chain[j] < |Next(s, e).futs| && SameFut(s.futs[chain[j]], Next(s, e).futs[chain[j]])
    ensures EndsStepOf(s, e) != Some(chain[j])
  {
    EveryStepGood(s, e);
    var t := chain[j];
    if j + 1 < n {
      assert IsSuspendedOn(s, t, chain[j + 1]);
      assert StateOk(s, t);
      if j + 2 < n { assert IsSuspendedOn(s, chain[j + 1], chain[j + 2]); }
      SuspendedNotResumed(s, e, t, chain[j + 1]);
      if e.Cancel? {
        assert Halting(s, e.fut);
        LeafOfIsLast(s, e.fut);
      }
      assert Moves(s, e) == Some(t) ==> Next(s, e) == s;
    } else {
      assert FailedWith(s, t, cs);
    }
  }

  /** The task whose step the label ends. */
  function EndsStepOf(s: Sys, e: Label): Option<Id> {
    if e.EndYield? || e.EndStep? then CurTask(s) else None
  }

  /** The step of the head ends: it has failed. */
  lemma HeadFails(s: Sys, e: Label, chain: seq<Id>, cs: set<Exc>, n: nat)
    requires Inv(s) && Enabled(s, e) && Uncaught(s, e, chain)
    requires Unwinding(s, chain, cs, n) && n > 0 && EndsStepOf(s, e) == Some(chain[n - 1])
    ensures FailedWith(Next(s, e), chain[n - 1], cs)
  {
    var t := chain[n - 1];
    assert StateOk(s, t);
    assert t in chain;
    assert HandleOk(s, s.cur.value);
    if s.futs[t].st.Running? { assert FailedWith(s, chain[n], cs); }
    assert ResumedWith(s, t).Some? && ResumedWith(s, t).value in cs;
    StepEnds(s, t, t, e.out, e.order);
  }

  /** Until then it stays as it is, or another cancellation takes the place of the first. */
  lemma HeadKept(s: Sys, e: Label, chain: seq<Id>, cs: set<Exc>, n: nat)
    requires Inv(s) && Acyclic(s) && Enabled(s, e) && LetsThrough(s, e, chain, cs)
    requires Unwinding(s, chain, cs, n) && n > 0 && EndsStepOf(s, e) != Some(chain[n - 1])
    ensures chain[n - 1] < |Next(s, e).futs|
    ensures Woken(Next(s, e).futs[chain[n - 1]], if n < |chain| then Some(chain[n]) else None, cs)
  {
    EveryStepGood(s, e);
    var t := chain[n - 1];
    assert StateOk(s, t);
    assert t in chain;
    if Moves(s, e) == Some(t) {
      if e.Begin? {
        assert HandleOk(s, e.handle);
      } else if e.Cancel? {
        HeadCancelled(s, e, t);
      }
    }
  }

  lemma HeadCancelled(s: Sys, e: Label, t: Id)
    requires Inv(s) && Acyclic(s) && Enabled(s, e) && e.Cancel? && t < |s.futs| && LeafOf(s, e.fut) == t
    requires s.futs[t].coro != NoCoro && !s.futs[t].st.Done()
    ensures t < |Next(s, e).futs| && Next(s, e).futs[t].coro == s.futs[t].coro
    ensures if Step(s, e).1 == Ok then Next(s, e).futs[t].st.Cancelling? && Next(s, e).futs[t].st.inner == e.c
            else Next(s, e) == s
  {
    assert Halting(s, e.fut);
    LeafOfIsLast(s, e.fut);
    CancelLeafCases(s, t, e.c, e.order);
  }

  /** Whether the label ends a step of a task of the chain. */
  ghost function Ends(s: Sys, e: Label, chain: seq<Id>): nat {
    if EndsStepOf(s, e).Some? && EndsStepOf(s, e).value in chain then 1 else 0
  }

  /** A label that ends a step of a task of the chain shortens what is left by exactly one; no other does. */
  lemma UnwindStep(s: Sys, e: Label, chain: seq<Id>, cs: set<Exc>, n: nat)
    requires Inv(s) && Acyclic(s) && Enabled(s, e) && LetsThrough(s, e, chain, cs)
    requires Unwinding(s, chain, cs, n)
    ensures Ends(s, e, chain) <= n && Unwinding(Next(s, e), chain, cs, n - Ends(s, e, chain))
  {
    var s' := Next(s, e);
    forall j | 0 <= j < |chain| && j + 1 != n
      ensures chain[j] < |s'.futs| && SameFut(s.futs[chain[j]], s'.futs[chain[j]])
      ensures EndsStepOf(s, e) != Some(chain[j])
    {
      ChainTaskKept(s, e, chain, cs, n, j);
    }
    EndsHeadOnly(s, e, chain, n);
    if n > 0 {
      if EndsStepOf(s, e) == Some(chain[n - 1]) {
        HeadFails(s, e, chain, cs, n);
      } else {
        HeadKept(s, e, chain, cs, n);
      }
    }
    UnwindFromParts(s, s', chain, cs, n, Ends(s, e, chain) == 1);
  }

  lemma EndsHeadOnly(s: Sys, e: Label, chain: seq<Id>, n: nat)
    requires forall j | 0 <= j < |chain| && j + 1 != n :: EndsStepOf(s, e) != Some(chain[j])
    requires n <= |chain|
    ensures Ends(s, e, chain) == if n > 0 && EndsStepOf(s, e) == Some(chain[n - 1]) then 1 else 0
  {
    if Ends(s, e, chain) == 1 {
      var j :| 0 <= j < |chain| && chain[j] == EndsStepOf(s, e).value;
    }
  }

  lemma UnwindFromParts(s: Sys, s': Sys, chain: seq<Id>, cs: set<Exc>, n: nat, failed: bool)
    requires Unwinding(s, chain, cs, n) && (failed ==> n > 0)
    requires forall j | 0 <= j < |chain| && j + 1 != n ::
               chain[j] < |s'.futs| && SameFut(s.futs[chain[j]], s'.futs[chain[j]])
    requires n > 0 ==> chain[n - 1] < |s'.futs|
    requires n > 0 ==>
      if failed then FailedWith(s', chain[n - 1], cs)
      else Woken(s'.futs[chain[n - 1]], if n < |chain| then Some(chain[n]) else None, cs)
    ensures Unwinding(s', chain, cs, if failed then n - 1 else n)
  {
    if n > 1 { assert IsSuspendedOn(s, chain[n - 2], chain[n - 1]); }
    forall j | 0 <= j < n - 1 ensures IsSuspendedOn(s', chain[j], chain[j + 1]) {
      assert IsSuspendedOn(s, chain[j], chain[j + 1]);
    }
    forall j | n <= j < |chain| ensures FailedWith(s', chain[j], cs) {
      assert FailedWith(s, chain[j], cs);
    }
  }

  /** How many steps of tasks of the chain a run ends. */
  ghost function StepsOf(s: Sys, es: seq<Label>, chain: seq<Id>): nat
    requires IsRun(s, es)
    decreases |es|
  {
    if es == [] then 0 else Ends(s, es[0], chain) + StepsOf(Next(s, es[0]), es[1..], chain)
  }

  lemma OneLabel(s: Sys, e: Label, chain: seq<Id>, cs: set<Exc>, n: nat) returns (left: nat)
    requires Inv(s) && Acyclic(s) && Enabled(s, e) && LetsThrough(s, e, chain, cs)
    requires Unwinding(s, chain, cs, n)
    ensures Inv(Next(s, e)) && Acyclic(Next(s, e))
    ensures left + Ends(s, e, chain) == n && Unwinding(Next(s, e), chain, cs, left)
  {
    EveryStepGood(s, e);
    StepAcyclic(s, e);
    UnwindStep(s, e, chain, cs, n);
    left := n - Ends(s, e, chain);
  }

  /**
   In every run each round that enters and leaves the handle of a task of the chain fails exactly one
   of the `n` tasks that are left.
   */
  lemma {:induction false} UnwindsRoundByRound(s: Sys, es: seq<Label>, chain: seq<Id>, cs: set<Exc>, n: nat)
    returns (left: nat)
    requires Inv(s) && Acyclic(s) && IsRun(s, es) && LetsThroughRun(s, es, chain, cs)
    requires Unwinding(s, chain, cs, n)
    ensures left + StepsOf(s, es, chain) == n && Unwinding(After(s, es), chain, cs, left)
    decreases |es|
  {
    left := n;
    if es != [] {
      left := OneLabel(s, es[0], chain, cs, n);
      left := UnwindsRoundByRound(Next(s, es[0]), es[1..], chain, cs, left);
    }
  }

  /** So a run steps the tasks of the chain `n` times at most, and when it has done so all have failed. */
  lemma RoundsUnwindChain(s: Sys, es: seq<Label>, chain: seq<Id>, cs: set<Exc>, n: nat)
    requires Inv(s) && Acyclic(s) && IsRun(s, es) && LetsThroughRun(s, es, chain, cs)
    requires Unwinding(s, chain, cs, n)
    ensures StepsOf(s, es, chain) <= n
    ensures StepsOf(s, es, chain) == n <==> AllFailed(After(s, es), chain, cs)
  {
    var m := UnwindsRoundByRound(s, es, chain, cs, n);
    if m == 0 {
      AllHaveFailed(After(s, es), chain, cs);
    } else {
      assert chain[m - 1] in chain;
      assert AllFailed(After(s, es), chain, cs) ==> FailedWith(After(s, es), chain[m - 1], cs);
    }
  }

  lemma AllHaveFailed(s: Sys, chain: seq<Id>, cs: set<Exc>)
    requires Unwinding(s, chain, cs, 0)
    ensures AllFailed(s, chain, cs)
  {
    forall i | i in chain ensures FailedWith(s, i, cs) {
      var j :| 0 <= j < |chain| && chain[j] == i;
    }
  }

  /** As long as a task of the chain has not failed, it executes or the loop holds a handle that resumes it. */
  lemma UnwindingIsLive(s: Sys, chain: seq<Id>, cs: set<Exc>, n: nat)
    requires Inv(s) && Unwinding(s, chain, cs, n) && n > 0 && CurTask(s) != Some(chain[n - 1])
    ensures exists h: HandleId :: Live(s, h) && StepTarget(s.handles[h].target) == Some(chain[n - 1])
  {
    var t := chain[n - 1];
    WaitedStateOk(s, t);
    if s.futs[t].st.Running? { assert FailedWith(s, chain[n], cs); }
    var h := if s.futs[t].st.Cancelling? then s.futs[t].st.handle else s.futs[chain[n]].st.sched[StepOf(t)];
    assert Live(s, h);
  }

  /** No task of the chain executes, and no live handle would step one. */
  ghost predicate AtRest(s: Sys, chain: seq<Id>) {
    && (forall t <- chain :: CurTask(s) != Some(t))
    && (forall h: HandleId | h < |s.handles| && Live(s, h) && StepTarget(s.handles[h].target).Some? ::
          StepTarget(s.handles[h].target).value !in chain)
  }

  lemma UnwoundAtRest(s: Sys, chain: seq<Id>, c: Exc, order: seq<Cb>, es: seq<Label>, cs: set<Exc>)
    requires Inv(s) && Acyclic(s) && IsChain(s, chain) && c in cs && forall x <- cs :: x.Cancelled?
    requires Enabled(s, Cancel(chain[0], c, order)) && Step(s, Cancel(chain[0], c, order)).1 == Ok
    requires var s1 := Next(s, Cancel(chain[0], c, order));
             IsRun(s1, es) && LetsThroughRun(s1, es, chain, cs) && AtRest(After(s1, es), chain)
    ensures AllFailed(After(Next(s, Cancel(chain[0], c, order)), es), chain, cs)
  {
    var e := Cancel(chain[0], c, order);
    var s1, s2 := Next(s, e), After(Next(s, e), es);
    CancelStartsUnwinding(s, chain, c, order);
    EveryStepGood(s, e);
    StepAcyclic(s, e);
    MoreCancellations(s1, chain, {c}, cs, Tasks(s, chain));
    var m := UnwindsRoundByRound(s1, es, chain, cs, Tasks(s, chain));
    RunKeepsInv(s1, es);
    if m == 0 {
      AllHaveFailed(s2, chain, cs);
    } else {
      assert chain[m - 1] in chain;
      UnwindingIsLive(s2, chain, cs, m);
    }
  }

  lemma MoreCancellations(s: Sys, chain: seq<Id>, cs: set<Exc>, cs': set<Exc>, n: nat)
    requires Unwinding(s, chain, cs, n) && cs <= cs' && forall x <- cs' :: x.Cancelled?
    ensures Unwinding(s, chain, cs', n)
  {
    forall j | n <= j < |chain| ensures FailedWith(s, chain[j], cs') {
      assert FailedWith(s, chain[j], cs);
    }
  }

  /**
   Cancelling the first task of a chain of any length, in any reachable state, in any run in which no
   coroutine of the chain catches a cancellation: once no live handle steps a task of the chain, every
   task and the future at its end have failed, with that cancellation or with one requested later.
   */
  lemma CancellationUnwindsChain(s: Sys, chain: seq<Id>, c: Exc, order: seq<Cb>, es: seq<Label>)
    requires Reachable(s) && IsChain(s, chain)
    requires Enabled(s, Cancel(chain[0], c, order)) && Step(s, Cancel(chain[0], c, order)).1 == Ok
    requires var s1 := Next(s, Cancel(chain[0], c, order));
             IsRun(s1, es) && UncaughtRun(s1, es, chain) && AtRest(After(s1, es), chain)
    ensures AllFailed(After(Next(s, Cancel(chain[0], c, order)), es), chain, {c} + Requested(es))
  {
    ReachableInv(s);
    var s1 := Next(s, Cancel(chain[0], c, order));
    RequestedAreCancelled(s1, es);
    OnlyRequested(s1, es, chain, {c} + Requested(es));
    UnwoundAtRest(s, chain, c, order, es, {c} + Requested(es));
  }

  lemma {:induction false} RequestedAreCancelled(s: Sys, es: seq<Label>)
    requires IsRun(s, es)
    ensures forall x <- Requested(es) :: x.Cancelled?
    decreases |es|
  {
    if es != [] {
      RequestedAreCancelled(Next(s, es[0]), es[1..]);
      assert es == [es[0]] + es[1..];
    }
  }

  /** If no other cancellation succeeds on the chain, all fail with that same one. */
  lemma SameCancellationUnwinds(s: Sys, chain: seq<Id>, c: Exc, order: seq<Cb>, es: seq<Label>)
    requires Reachable(s) && IsChain(s, chain)
    requires Enabled(s, Cancel(chain[0], c, order)) && Step(s, Cancel(chain[0], c, order)).1 == Ok
    requires var s1 := Next(s, Cancel(chain[0], c, order));
             IsRun(s1, es) && LetsThroughRun(s1, es, chain, {c}) && AtRest(After(s1, es), chain)
    ensures AllFailed(After(Next(s, Cancel(chain[0], c, order)), es), chain, {c})
  {
    ReachableInv(s);
    UnwoundAtRest(s, chain, c, order, es, {c});
  }

  // ---------- The loop needs two labels per task ----------

  lemma {:induction false} EnumerationExists(cbs: set<Cb>) returns (order: seq<Cb>)
    ensures Enumerates(order, cbs)
  {
    if cbs == {} {
      order := [];
    } else {
      var cb :| cb in cbs;
      var rest := EnumerationExists(cbs - {cb});
      order := [cb] + rest;
    }
  }

  /** The loop enters the handle that wakes the head, and resumes it with a cancellation. */
  lemma HeadResumed(s: Sys, chain: seq<Id>, cs: set<Exc>, n: nat) returns (h: HandleId)
    requires Inv(s) && Acyclic(s) && Unwinding(s, chain, cs, n) && n > 0 && s.cur == None
    ensures Enabled(s, Begin(h)) && LetsThrough(s, Begin(h), chain, cs)
    ensures var s1 := Next(s, Begin(h));
            && Unwinding(s1, chain, cs, n) && CurTask(s1) == Some(chain[n - 1])
            && ResumedWith(s1, chain[n - 1]).Some?
  {
    UnwindingIsLive(s, chain, cs, n);
    h :| Live(s, h) && StepTarget(s.handles[h].target) == Some(chain[n - 1]);
    WaitedStateOk(s, chain[n - 1]);
    if s.futs[chain[n - 1]].st.Running? { assert FailedWith(s, chain[n], cs); }
    UnwindStep(s, Begin(h), chain, cs, n);
    assert Next(s, Begin(h)).futs[chain[n - 1]].st == s.futs[chain[n - 1]].st;
  }

  lemma RaisesThrough(s: Sys, chain: seq<Id>, cs: set<Exc>, n: nat, order: seq<Cb>)
    requires Inv(s) && Acyclic(s) && Unwinding(s, chain, cs, n) && n > 0
    requires CurTask(s) == Some(chain[n - 1]) && ResumedWith(s, chain[n - 1]).Some?
    requires !s.futs[chain[n - 1]].st.Done() && Enumerates(order, s.futs[chain[n - 1]].st.cbs)
    ensures var e := EndStep(Raised(ResumedWith(s, chain[n - 1]).value), order);
            && Enabled(s, e) && LetsThrough(s, e, chain, cs)
            && Next(s, e).cur == None && Unwinding(Next(s, e), chain, cs, n - 1)
  {
    var t := chain[n - 1];
    assert t in chain && StateOk(s, t);
    if s.futs[t].st.Running? { assert FailedWith(s, chain[n], cs); }
    UnwindStep(s, EndStep(Raised(ResumedWith(s, t).value), order), chain, cs, n);
  }

  lemma TwoLabels(s: Sys, a: Label, b: Label, chain: seq<Id>, cs: set<Exc>)
    requires Enabled(s, a) && LetsThrough(s, a, chain, cs)
    requires Enabled(Next(s, a), b) && LetsThrough(Next(s, a), b, chain, cs)
    ensures IsRun(s, [a, b]) && After(s, [a, b]) == Next(Next(s, a), b) && LetsThroughRun(s, [a, b], chain, cs)
  {
    assert [a, b][1..] == [b] && [b][1..] == [];
    var s1 := Next(s, a);
    assert IsRun(Next(s1, b), []) && LetsThroughRun(Next(s1, b), [], chain, cs);
    assert IsRun(s1, [b]) && After(s1, [b]) == Next(s1, b) && LetsThroughRun(s1, [b], chain, cs);
  }

  /** Resuming the head and letting it fail shortens the rest of the chain by one. */
  lemma UnwindOnce(s: Sys, chain: seq<Id>, cs: set<Exc>, n: nat) returns (es: seq<Label>)
    requires Inv(s) && Acyclic(s) && Unwinding(s, chain, cs, n) && n > 0 && s.cur == None
    ensures |es| == 2 && IsRun(s, es) && LetsThroughRun(s, es, chain, cs)
    ensures After(s, es).cur == None && Unwinding(After(s, es), chain, cs, n - 1)
  {
    var h := HeadResumed(s, chain, cs, n);
    EveryStepGood(s, Begin(h));
    StepAcyclic(s, Begin(h));
    var s1 := Next(s, Begin(h));
    var order := EnumerationExists(s1.futs[chain[n - 1]].st.cbs);
    RaisesThrough(s1, chain, cs, n, order);
    var end := EndStep(Raised(ResumedWith(s1, chain[n - 1]).value), order);
    TwoLabels(s, Begin(h), end, chain, cs);
    es := [Begin(h), end];
  }

  lemma {:induction false} RunThenRun(s: Sys, es: seq<Label>, fs: seq<Label>, chain: seq<Id>, cs: set<Exc>)
    requires IsRun(s, es) && IsRun(After(s, es), fs)
    requires LetsThroughRun(s, es, chain, cs) && LetsThroughRun(After(s, es), fs, chain, cs)
    ensures IsRun(s, es + fs) && After(s, es + fs) == After(After(s, es), fs) && LetsThroughRun(s, es + fs, chain, cs)
    decreases |es|
  {
    if es == [] {
      assert es + fs == fs;
    } else {
      assert (es + fs)[1..] == es[1..] + fs;
      RunThenRun(Next(s, es[0]), es[1..], fs, chain, cs);
    }
  }

  /** The unwinding can always be completed, within two labels for each task that remains. */
  lemma {:induction false} UnwindingCompletes(s: Sys, chain: seq<Id>, cs: set<Exc>, n: nat) returns (es: seq<Label>)
    requires Inv(s) && Acyclic(s) && Unwinding(s, chain, cs, n) && s.cur == None
    ensures |es| == 2 * n && IsRun(s, es) && LetsThroughRun(s, es, chain, cs) && AllFailed(After(s, es), chain, cs)
    decreases n
  {
    if n == 0 {
      es := [];
      AllHaveFailed(s, chain, cs);
    } else {
      var first := UnwindOnce(s, chain, cs, n);
      RunKeepsInv(s, first);
      var rest := UnwindingCompletes(After(s, first), chain, cs, n - 1);
      RunThenRun(s, first, rest, chain, cs);
      es := first + rest;
    }
  }
}
