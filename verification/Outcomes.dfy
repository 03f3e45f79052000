/**
 What futures are finished with, from the label that finishes them to the coroutine that awaits them;
 and what the callers are answered.
 */
module Outcomes {
  import opened Wrappers
  import opened FutureMachine
  import opened WakeUps
  import opened Reachability
  import opened Callbacks
  import opened HandleTable
  import opened Cancellation

  // ---------- A future is finished with what the label says ----------

  /** The label finishes `f` with `out`: through its promise, by cancelling it, or as the task returns or raises. */
  ghost predicate FinishesWith(s: Sys, e: Label, f: Id, out: Outcome) {
    && Enabled(s, e) && Step(s, e).1 == Ok
    && match e
       case SetResult(g, o, _) => g == f && o == out
       case EndStep(o, _) => CurTask(s) == Some(f) && o == out
       case Cancel(g, c, _) =>
         Halting(s, g) && LeafOf(s, g) == f < |s.futs| && s.futs[f].coro == NoCoro && out == Raised(c)
       case _ => false
  }

  predicate Unfinished(s: Sys, f: Id) {
    f < |s.futs| ==> !s.futs[f].st.Done()
  }

  /** What `result` and `exception` give. */
  predicate Holds(s: Sys, f: Id, out: Outcome) {
    && f < |s.futs|
    && match out
       case Value(v) => s.futs[f].st.Success? && s.futs[f].st.result == v
       case Raised(x) => s.futs[f].st.Failed? && s.futs[f].st.exc == x
  }

  lemma CancelEnds(s: Sys, e: Label, f: Id)
    requires Inv(s) && Acyclic(s) && Enabled(s, e) && e.Cancel? && LeafOf(s, e.fut) == f
    ensures f < |s.futs|
    ensures Step(s, e).1 == Ok && s.futs[f].coro == NoCoro ==> Unfinished(s, f) && Holds(Next(s, e), f, Raised(e.c))
    ensures Unfinished(s, f) && !Unfinished(Next(s, e), f) ==> Step(s, e).1 == Ok && s.futs[f].coro == NoCoro
  {
    assert Halting(s, e.fut);
    LeafOfIsLast(s, e.fut);
    CancelLeafCases(s, f, e.c, e.order);
  }

  /** One label: `f` holds exactly `out` afterwards if and only if the label ends it with `out`, or it did before. */
  lemma HoldsAfterLabel(s: Sys, e: Label, f: Id, out: Outcome)
    requires Inv(s) && Acyclic(s) && Enabled(s, e)
    ensures Holds(Next(s, e), f, out) <==> Holds(s, f, out) || FinishesWith(s, e, f, out)
    ensures FinishesWith(s, e, f, out) ==> f < |s.futs| && Unfinished(s, f)
  {
    EveryStepGood(s, e);
    if f >= |s.futs| {
      if f < |Next(s, e).futs| { NewFutureBare(s, e, f); }
      if e.Cancel? { CancelEnds(s, e, LeafOf(s, e.fut)); }
    } else {
      assert StateOk(s, f);
      if Moves(s, e) == Some(f) { MovedHolds(s, e, f, out); }
    }
  }

  lemma MovedHolds(s: Sys, e: Label, f: Id, out: Outcome)
    requires Inv(s) && Acyclic(s) && Enabled(s, e) && f < |s.futs| && Moves(s, e) == Some(f) && StateOk(s, f)
    ensures Holds(Next(s, e), f, out) <==> Holds(s, f, out) || FinishesWith(s, e, f, out)
    ensures FinishesWith(s, e, f, out) ==> Unfinished(s, f)
  {
    match e
    case Cancel(_, _, _) => CancelMovesHolds(s, e, f, out);
    case EndYield(_) => GoodYield(s, e);
    case EndStep(o, order) => StepEnds(s, f, f, o, order);
    case Begin(h) => BeginKeepsState(s, h, f);
    case _ =>
  }

  lemma CancelMovesHolds(s: Sys, e: Label, f: Id, out: Outcome)
    requires Inv(s) && Acyclic(s) && Enabled(s, e) && e.Cancel? && f < |s.futs| && LeafOf(s, e.fut) == f
    ensures Holds(Next(s, e), f, out) <==> Holds(s, f, out) || FinishesWith(s, e, f, out)
    ensures FinishesWith(s, e, f, out) ==> Unfinished(s, f)
  {
    EveryStepGood(s, e);
    assert Halting(s, e.fut);
    CancelEnds(s, e, f);
  }

  lemma BeginKeepsState(s: Sys, h: HandleId, t: Id)
    requires Inv(s) && Enabled(s, Begin(h)) && t < |s.futs|
    ensures t < |Next(s, Begin(h)).futs| && Next(s, Begin(h)).futs[t].st == s.futs[t].st
  {
    assert HandleOk(s, h);
  }

  /** Some label of the run ends `f` with `out`. */
  ghost predicate FinishedIn(s: Sys, es: seq<Label>, f: Id, out: Outcome)
    requires IsRun(s, es)
    decreases |es|
  {
    es != [] && (FinishesWith(s, es[0], f, out) || FinishedIn(Next(s, es[0]), es[1..], f, out))
  }

  lemma {:induction false} HoldsAfterRun(s: Sys, es: seq<Label>, f: Id, out: Outcome)
    requires Inv(s) && Acyclic(s) && IsRun(s, es)
    ensures Holds(After(s, es), f, out) <==> Holds(s, f, out) || FinishedIn(s, es, f, out)
    decreases |es|
  {
    if es != [] {
      HoldsAfterLabel(s, es[0], f, out);
      EveryStepGood(s, es[0]);
      StepAcyclic(s, es[0]);
      HoldsAfterRun(Next(s, es[0]), es[1..], f, out);
    }
  }

  /**
   In every run from the start: a future holds a value, or an exception, if and only if some label of the
   run has finished it with just that. So what it is finished with is neither lost nor changed, and is
   not made up.
   */
  lemma FutureHoldsWhatItWasGiven(es: seq<Label>, f: Id, out: Outcome)
    requires IsRun(INIT, es)
    ensures Holds(After(INIT, es), f, out) <==> FinishedIn(INIT, es, f, out)
  {
    HoldsAfterRun(INIT, es, f, out);
  }

  /** From the label on, for ever. */
  lemma OutcomeStays(s: Sys, e: Label, f: Id, out: Outcome, es: seq<Label>)
    requires Reachable(s) && FinishesWith(s, e, f, out) && IsRun(Next(s, e), es)
    ensures Holds(Next(s, e), f, out) && Holds(After(Next(s, e), es), f, out)
  {
    ReachableInv(s);
    HoldsAfterLabel(s, e, f, out);
    EveryStepGood(s, e);
    StepAcyclic(s, e);
    HoldsAfterRun(Next(s, e), es, f, out);
  }

  // ---------- What a coroutine is resumed with ----------

  /** The label cancels task `t`, which is the end of a chain of waits. */
  ghost predicate Cancels(s: Sys, e: Label, t: Id)
    requires Enabled(s, e)
  {
    e.Cancel? && Halting(s, e.fut) && LeafOf(s, e.fut) == t && Step(s, e).1 == Ok
  }

  /** A cancellation of the run reaches task `t` and succeeds. */
  ghost predicate CancelledIn(s: Sys, es: seq<Label>, t: Id)
    requires IsRun(s, es)
    decreases |es|
  {
    es != [] && (Cancels(s, es[0], t) || CancelledIn(Next(s, es[0]), es[1..], t))
  }

  /** A scheduled task keeps its state until its step ends or a cancellation reaches it. */
  lemma TaskKept(s: Sys, e: Label, t: Id)
    requires Inv(s) && Acyclic(s) && Enabled(s, e) && t < |s.futs| && !Cancels(s, e, t) && EndsStepOf(s, e) != Some(t)
    requires s.futs[t].st.Scheduled? || s.futs[t].st.Cancelling? || s.futs[t].st.Running?
    ensures t < |Next(s, e).futs| && SameCore(s.futs[t].st, Next(s, e).futs[t].st)
  {
    EveryStepGood(s, e);
    assert StateOk(s, t);
    if Moves(s, e) == Some(t) {
      match e {
        case Begin(h) => BeginKeepsState(s, h, t);
        case Cancel(_, _, _) => assert Halting(s, e.fut);
        case _ =>
      }
    }
  }

  lemma {:induction false} TaskKeptInRun(s: Sys, es: seq<Label>, t: Id)
    requires Inv(s) && Acyclic(s) && IsRun(s, es) && t < |s.futs|
    requires !CancelledIn(s, es, t) && StepsOf(s, es, [t]) == 0
    requires s.futs[t].st.Scheduled? || s.futs[t].st.Cancelling? || s.futs[t].st.Running?
    ensures Inv(After(s, es)) && t < |After(s, es).futs| && SameCore(s.futs[t].st, After(s, es).futs[t].st)
    decreases |es|
  {
    if es != [] {
      assert Ends(s, es[0], [t]) == 0 && EndsStepOf(s, es[0]) != Some(t);
      TaskKept(s, es[0], t);
      EveryStepGood(s, es[0]);
      StepAcyclic(s, es[0]);
      TaskKeptInRun(Next(s, es[0]), es[1..], t);
    }
  }

  /** The label is the loop entering a handle that steps task `t`. */
  ghost predicate IsResumption(s: Sys, e: Label, t: Id) {
    e.Begin? && Enabled(s, e) && StepTarget(s.handles[e.handle].target) == Some(t)
  }

  /**
   A task that waits on `f` when the label finishes `f` gets just that: the value is sent, or the exception
   raised, into its coroutine the next time it is resumed, whatever happens in between; unless the task
   itself is cancelled. (A StopIteration leaves the generator of `__await__` as a RuntimeError.)
   */
  lemma AwaiterGetsTheOutcome(s: Sys, e: Label, f: Id, out: Outcome, t: Id, es: seq<Label>, b: Label)
    requires Reachable(s) && FinishesWith(s, e, f, out)
    requires t < |s.futs| && s.futs[t].st.Running? && s.futs[t].st.waitingOn == f
    requires IsRun(Next(s, e), es) && !CancelledIn(Next(s, e), es, t) && StepsOf(Next(s, e), es, [t]) == 0
    requires IsResumption(After(Next(s, e), es), b, t)
    ensures Step(After(Next(s, e), es), b).1 ==
      match out
      case Value(v) => Resumes(Gets(v))
      case Raised(x) => Resumes(GetsError(if x.StopIteration? then RuntimeError else x))
  {
    ReachableInv(s);
    var s1 := Next(s, e);
    EveryStepGood(s, e);
    StepAcyclic(s, e);
    HoldsAfterLabel(s, e, f, out);
    FinishingLeavesAwaiter(s, e, f, out, t);
    TaskKeptInRun(s1, es, t);
    HoldsAfterRun(s1, es, f, out);
    AwaitDelivery(After(s1, es), f, out, t, b);
  }

  lemma AwaitDelivery(s: Sys, f: Id, out: Outcome, t: Id, b: Label)
    requires Inv(s) && IsResumption(s, b, t) && Holds(s, f, out)
    requires t < |s.futs| && s.futs[t].st.Running? && s.futs[t].st.waitingOn == f
    ensures Step(s, b).1 ==
      match out
      case Value(v) => Resumes(Gets(v))
      case Raised(x) => Resumes(GetsError(if x.StopIteration? then RuntimeError else x))
  {
    assert HandleOk(s, b.handle);
  }

  lemma FinishingLeavesAwaiter(s: Sys, e: Label, f: Id, out: Outcome, t: Id)
    requires Inv(s) && Acyclic(s) && FinishesWith(s, e, f, out)
    requires t < |s.futs| && s.futs[t].st.Running? && s.futs[t].st.waitingOn == f
    ensures t < |Next(s, e).futs| && SameCore(s.futs[t].st, Next(s, e).futs[t].st)
  {
    assert StateOk(s, t);
    HoldsAfterLabel(s, e, f, out);
    assert f != t && EndsStepOf(s, e) != Some(t);
    TaskKept(s, e, t);
  }

  /** A cancelled task is resumed by throwing that cancellation into it, and is not cancelled a second time. */
  lemma CancelledTaskIsThrownInto(s: Sys, e: Label, t: Id, es: seq<Label>, b: Label)
    requires Reachable(s) && Enabled(s, e) && Cancels(s, e, t) && t < |s.futs| && s.futs[t].coro != NoCoro
    requires IsRun(Next(s, e), es) && StepsOf(Next(s, e), es, [t]) == 0 && IsResumption(After(Next(s, e), es), b, t)
    ensures Step(After(Next(s, e), es), b).1 == Resumes(Throws(e.c)) && !CancelledIn(Next(s, e), es, t)
  {
    ReachableInv(s);
    EveryStepGood(s, e);
    StepAcyclic(s, e);
    CancelLeafShape(s, e, t);
    CancelledOnce(Next(s, e), es, t);
    TaskKeptInRun(Next(s, e), es, t);
    assert HandleOk(After(Next(s, e), es), b.handle);
  }

  lemma CancelLeafShape(s: Sys, e: Label, t: Id)
    requires Inv(s) && Acyclic(s) && Enabled(s, e) && Cancels(s, e, t) && t < |s.futs| && s.futs[t].coro != NoCoro
    ensures t < |Next(s, e).futs| && Next(s, e).futs[t].st.Cancelling? && Next(s, e).futs[t].st.inner == e.c
  {
    LeafOfIsLast(s, e.fut);
    CancelLeafCases(s, t, e.c, e.order);
  }

  lemma {:induction false} CancelledOnce(s: Sys, es: seq<Label>, t: Id)
    requires Inv(s) && Acyclic(s) && IsRun(s, es) && t < |s.futs| && s.futs[t].st.Cancelling?
    requires StepsOf(s, es, [t]) == 0
    ensures !CancelledIn(s, es, t)
    decreases |es|
  {
    if es != [] {
      var e := es[0];
      assert Ends(s, e, [t]) == 0 && EndsStepOf(s, e) != Some(t);
      EveryStepGood(s, e);
      StepAcyclic(s, e);
      assert StateOk(s, t);
      if Cancels(s, e, t) {
        LeafOfIsLast(s, e.fut);
        CancelLeafCases(s, t, e.c, e.order);
      }
      TaskKept(s, e, t);
      CancelledOnce(Next(s, e), es[1..], t);
    }
  }

  /** A task that was scheduled starts with the first send. */
  lemma ScheduledTaskStarts(s: Sys, t: Id, es: seq<Label>, b: Label)
    requires Reachable(s) && Enabled(s, Schedule(t)) && Step(s, Schedule(t)).1 == Ok
    requires IsRun(Next(s, Schedule(t)), es) && !CancelledIn(Next(s, Schedule(t)), es, t)
    requires StepsOf(Next(s, Schedule(t)), es, [t]) == 0 && IsResumption(After(Next(s, Schedule(t)), es), b, t)
    ensures Step(After(Next(s, Schedule(t)), es), b).1 == Resumes(FirstSend)
  {
    ReachableInv(s);
    EveryStepGood(s, Schedule(t));
    StepAcyclic(s, Schedule(t));
    assert StateOk(s, t);
    TaskKeptInRun(Next(s, Schedule(t)), es, t);
    assert HandleOk(After(Next(s, Schedule(t)), es), b.handle);
  }

  // ---------- What the callers are answered ----------

  /** A promise answers Ok exactly when it has finished its future with `out`, and else says why it has not. */
  lemma SetResultAnswers(s: Sys, f: Id, out: Outcome, order: seq<Cb>)
    requires Reachable(s) && Enabled(s, SetResult(f, out, order))
    ensures var (s', r) := Step(s, SetResult(f, out, order));
      var isTask := s.futs[f].coro != NoCoro;
      var isCancellation := out.Raised? && out.exc.Cancelled?;
      && (r == Ok <==> Unfinished(s, f) && Holds(s', f, out))
      && (r == Ok <==> !isTask && !isCancellation && Unfinished(s, f))
      && (r == Raises(PromiseOfTask) <==> isTask)
      && (r == Raises(UseCancelInstead) <==> !isTask && isCancellation)
      && (r == Raises(FutureFinished) <==> !isTask && !isCancellation && !Unfinished(s, f))
      && (r != Ok ==> s' == s)
  {
    ReachableInv(s);
    HoldsAfterLabel(s, SetResult(f, out, order), f, out);
  }

  /** A callback can be added to an unfinished future, and to no other; it can always be taken back. */
  lemma CallbackAnswers(s: Sys, f: Id, k: nat)
    requires Reachable(s) && f < |s.futs|
    ensures var (s', r) := Step(s, AddCb(f, k));
      && r == (if Unfinished(s, f) then Ok else Raises(FutureFinished))
      && (r == Ok ==> Unfinished(s', f) && s'.futs[f].st.cbs == s.futs[f].st.cbs + {User(k)})
      && (r != Ok ==> s' == s)
    ensures var (s', r) := Step(s, RemoveCb(f, k));
      && r == Ok && !HasUser(s', f, k)
      && (Unfinished(s, f) ==> Unfinished(s', f) && s'.futs[f].st.cbs == s.futs[f].st.cbs - {User(k)})
  {
    ReachableInv(s);
    assert StateOk(s, f);
  }

  /** Only a task that is newly created can be scheduled; a live handle then makes its first step. */
  lemma ScheduleAnswers(s: Sys, t: Id)
    requires Reachable(s) && Enabled(s, Schedule(t))
    ensures var (s', r) := Step(s, Schedule(t));
      && r == (if s.futs[t].st.Created? then Ok else Raises(NotNewlyCreated))
      && (r == Ok ==> s'.futs[t].st.Scheduled? && Live(s', |s.handles|) && s'.handles[|s.handles|].target == Kick(t))
      && (r != Ok ==> s' == s)
  {
    ReachableInv(s);
    assert StateOk(s, t);
    EveryStepGood(s, Schedule(t));
    if s.cur.Some? { assert s.cur.value < |s.handles|; }
  }

  /** A new promise is pending and can be finished; a new task can be scheduled. */
  lemma CreationAnswers(s: Sys, out: Outcome)
    requires Reachable(s) && !(out.Raised? && out.exc.Cancelled?)
    ensures var s' := Next(s, NewFuture);
      && Step(s, NewFuture).1 == Ok && s'.futs == s.futs + [Fut(Pending({}), NoCoro)]
      && Enabled(s', SetResult(|s.futs|, out, [])) && Step(s', SetResult(|s.futs|, out, [])).1 == Ok
    ensures var s' := Next(s, NewTask);
      && Step(s, NewTask).1 == Ok && s'.futs == s.futs + [Fut(Created({}), Fresh)]
      && Enabled(s', Schedule(|s.futs|)) && Step(s', Schedule(|s.futs|)).1 == Ok
  {
  }

  /** A coroutine that yields `f` leaves its task waiting on `f`, registered there for its next step. */
  lemma YieldWaits(s: Sys, f: Id)
    requires Reachable(s) && Enabled(s, EndYield(f))
    ensures var (s', r) := Step(s, EndYield(f));
      var t := CurTask(s).value;
      && r == Ok && s'.cur == None && s'.futs[t].st.Running? && s'.futs[t].st.waitingOn == f
      && Unfinished(s', f) && StepOf(t) in s'.futs[f].st.cbs && Follow(s', t) == Some(f)
  {
    ReachableInv(s);
    GoodYield(s, EndYield(f));
    YieldShape(s, CurTask(s).value, f);
  }

  // ---------- Cancelled handles ----------

  lemma {:induction false} CancelledStaysOut(s: Sys, es: seq<Label>, h: HandleId)
    requires Inv(s) && Acyclic(s) && IsRun(s, es) && h < |s.handles| && s.handles[h].cancelled && h !in s.ran
    ensures h !in After(s, es).ran
    decreases |es|
  {
    if es != [] {
      EveryStepGood(s, es[0]);
      StepAcyclic(s, es[0]);
      StepRanExtends(s, es[0]);
      CancelledStays(s, es[0], h);
      CancelledStaysOut(Next(s, es[0]), es[1..], h);
    }
  }

  lemma CancelledStays(s: Sys, e: Label, h: HandleId)
    requires Inv(s) && Acyclic(s) && Enabled(s, e) && h < |s.handles| && s.handles[h].cancelled
    ensures h < |Next(s, e).handles| && Next(s, e).handles[h].cancelled
  {
    LabelGrows(s, e);
  }

  /** A handle that the program cancels before the loop enters it is not entered in any run. */
  lemma CancelledHandleIsNotEntered(s: Sys, h: HandleId, es: seq<Label>)
    requires Reachable(s) && Enabled(s, CancelHandle(h)) && h !in s.ran && IsRun(Next(s, CancelHandle(h)), es)
    ensures Step(s, CancelHandle(h)).1 == Ok && h !in After(Next(s, CancelHandle(h)), es).ran
  {
    ReachableInv(s);
    EveryStepGood(s, CancelHandle(h));
    StepAcyclic(s, CancelHandle(h));
    CancelledStaysOut(Next(s, CancelHandle(h)), es, h);
  }
}
