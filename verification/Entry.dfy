/**
 aio/loop/entry.py: `run` creates the root task, registers `receive_result` with it, and leaves
 the loop once that callback has stopped the runner and no live handle is left.
 */
module Entry {
  import opened Wrappers
  import opened FutureMachine
  import opened WakeUps
  import opened Reachability
  import opened Callbacks
  import opened Outcomes
  import PureRuntime

  /** The closure `receive_result`. Only `run` can name it. */
  const RECEIVE_RESULT: nat := 0

  /** The first task of a fresh loop. */
  const ROOT: Id := 0

  const START: seq<Label> := [NewTask, Schedule(ROOT), AddCb(ROOT, RECEIVE_RESULT)]

  /** The futures of the loop, `_run` of the runner, and the nonlocal `received_fut`. */
  datatype App = App(sys: Sys, running: bool, received: Option<Id>)

  /** The future that entering handle `h` passes to `receive_result`. */
  function Receives(s: Sys, e: Label): Option<Id> {
    if e.Begin? && e.handle < |s.handles| && s.handles[e.handle].target.Callback?
       && s.handles[e.handle].target.cb == User(RECEIVE_RESULT)
    then Some(s.handles[e.handle].target.fut) else None
  }

  ghost predicate AppEnabled(a: App, e: Label) {
    && Enabled(a.sys, e)
    && !(e.AddCb? && e.key == RECEIVE_RESULT) && !(e.RemoveCb? && e.key == RECEIVE_RESULT)
  }

  ghost function AppNext(a: App, e: Label): App
    requires AppEnabled(a, e)
  {
    var s := Next(a.sys, e);
    match Receives(a.sys, e)
    case None => a.(sys := s)
    case Some(f) => App(s, false, Some(f))
  }

  ghost predicate IsAppRun(a: App, es: seq<Label>)
    decreases |es|
  {
    es == [] || (AppEnabled(a, es[0]) && IsAppRun(AppNext(a, es[0]), es[1..]))
  }

  ghost function AppAfter(a: App, es: seq<Label>): App
    requires IsAppRun(a, es)
    decreases |es|
  {
    if es == [] then a else AppAfter(AppNext(a, es[0]), es[1..])
  }

  /** The loop is between two steps, and the scheduler holds no live handle. */
  ghost predicate Idle(s: Sys) {
    s.cur == None && forall h: HandleId | h < |s.handles| :: !Live(s, h)
  }

  /** The state in which `run_loop` is entered. */
  function Started(): App {
    var root := Fut(Scheduled({User(RECEIVE_RESULT)}, 0), Fresh);
    App(Sys([root], [Handle(Kick(ROOT), false, false)], None, []), true, None)
  }

  lemma StartRun()
    ensures IsRun(INIT, START) && After(INIT, START) == Started().sys
  {
    var s1 := Next(INIT, NewTask);
    assert s1 == Sys([Fut(Created({}), Fresh)], [], None, []);
    var s2 := Next(s1, Schedule(ROOT));
    assert s2 == Sys([Fut(Scheduled({}, 0), Fresh)], [Handle(Kick(ROOT), false, false)], None, []);
    var s3 := Next(s2, AddCb(ROOT, RECEIVE_RESULT));
    assert {} + {User(RECEIVE_RESULT)} == {User(RECEIVE_RESULT)};
    assert s3 == Started().sys;
    var l1, l2 := START[1..], START[1..][1..];
    assert l2 == [AddCb(ROOT, RECEIVE_RESULT)] && l2[1..] == [];
    assert IsRun(s3, []) && After(s3, []) == s3;
    assert IsRun(s2, l2) && After(s2, l2) == s3;
    assert IsRun(s1, l1) && After(s1, l1) == s3;
  }

  /** `receive_result` is armed on the root task alone, and the runner runs until it is called. */
  ghost predicate AppInv(a: App) {
    && Inv(a.sys) && Acyclic(a.sys)
    && Armed(a.sys, ROOT, RECEIVE_RESULT)
    && (forall f: Id | f < |a.sys.futs| && f != ROOT :: !HasUser(a.sys, f, RECEIVE_RESULT))
    && (a.running <==> Calls(a.sys, ROOT, RECEIVE_RESULT) == 0)
    && a.received == (if a.running then None else Some(ROOT))
  }

  lemma StartedInv()
    ensures AppInv(Started())
  {
    StartRun();
    assert Inv(INIT) && Acyclic(INIT);
    RunKeepsInv(INIT, START);
  }

  lemma OnlyRootReceives(s: Sys, s': Sys, e: Label)
    requires Inv(s) && Acyclic(s) && Enabled(s, e) && s' == Next(s, e)
    requires !(e.AddCb? && e.key == RECEIVE_RESULT)
    requires forall f: Id | f < |s.futs| && f != ROOT :: !HasUser(s, f, RECEIVE_RESULT)
    ensures forall f: Id | f < |s'.futs| && f != ROOT :: !HasUser(s', f, RECEIVE_RESULT)
    ensures Receives(s, e).Some? ==> Receives(s, e).value == ROOT
  {
    forall f: Id | f < |s'.futs| && f != ROOT ensures !HasUser(s', f, RECEIVE_RESULT) {
      if f < |s.futs| { StepKeepsUser(s, e, f, RECEIVE_RESULT); } else { NewFutureBare(s, e, f); }
    }
    if Receives(s, e).Some? {
      assert HandleOk(s, e.handle);
      assert HasUser(s, Receives(s, e).value, RECEIVE_RESULT);
    }
  }

  /** The runner is stopped by the one call of `receive_result`. */
  lemma CallStopsRunner(a: App, e: Label)
    requires AppInv(a) && AppEnabled(a, e)
    ensures var a' := AppNext(a, e);
      && (a'.running <==> Calls(a'.sys, ROOT, RECEIVE_RESULT) == 0)
      && a'.received == (if a'.running then None else Some(ROOT))
  {
    var s, s' := a.sys, Next(a.sys, e);
    OnlyRootReceives(s, s', e);
    StepRanExtends(s, e);
    CallsExtend(s.handles, s'.handles, s.ran, ROOT, RECEIVE_RESULT);
    if e.Begin? { assert s'.ran[..|s'.ran| - 1] == s.ran; }
  }

  lemma AppStep(a: App, e: Label)
    requires AppInv(a) && AppEnabled(a, e)
    ensures AppInv(AppNext(a, e))
  {
    EveryStepGood(a.sys, e);
    StepAcyclic(a.sys, e);
    StepKeepsUser(a.sys, e, ROOT, RECEIVE_RESULT);
    OnlyRootReceives(a.sys, Next(a.sys, e), e);
    CallStopsRunner(a, e);
  }

  lemma {:induction false} AppRun(a: App, es: seq<Label>)
    requires AppInv(a) && IsAppRun(a, es)
    ensures AppInv(AppAfter(a, es))
    decreases |es|
  {
    if es != [] {
      AppStep(a, es[0]);
      AppRun(AppNext(a, es[0]), es[1..]);
    }
  }

  /** The labels of the steps of the loop, each of which ends outside of every handle. */
  ghost predicate AreSteps(a: App, steps: seq<seq<Label>>)
    decreases |steps|
  {
    steps == [] ||
    (&& IsAppRun(a, steps[0]) && AppAfter(a, steps[0]).sys.cur == None
     && AreSteps(AppAfter(a, steps[0]), steps[1..]))
  }

  ghost function AfterSteps(a: App, steps: seq<seq<Label>>): App
    requires AreSteps(a, steps)
    decreases |steps|
  {
    if steps == [] then a else AfterSteps(AppAfter(a, steps[0]), steps[1..])
  }

  lemma {:induction false} NextStep(a: App, steps: seq<seq<Label>>, k: nat)
    requires AreSteps(a, steps) && k < |steps|
    ensures AreSteps(a, steps[..k]) && AreSteps(a, steps[..k + 1])
    ensures var b := AfterSteps(a, steps[..k]);
      && IsAppRun(b, steps[k]) && AppAfter(b, steps[k]).sys.cur == None
      && AfterSteps(a, steps[..k + 1]) == AppAfter(b, steps[k])
    decreases k
  {
    var rest := steps[1..];
    assert steps[..k + 1][1..] == rest[..k];
    if k == 0 {
      assert steps[..1] == [steps[0]];
    } else {
      assert steps[..k][1..] == rest[..k - 1] && rest[k - 1] == steps[k];
      NextStep(AppAfter(a, steps[0]), rest, k - 1);
    }
  }

  /** The runner has made `k` steps, each because it was not stopped or a live handle was left, and is at `b`. */
  ghost predicate Made(a: App, steps: seq<seq<Label>>, k: nat, b: App) {
    && k <= |steps| && AreSteps(a, steps[..k]) && b == AfterSteps(a, steps[..k])
    && forall j | 0 <= j < k ::
         && AreSteps(a, steps[..j])
         && (var c := AfterSteps(a, steps[..j]); c.running || !Idle(c.sys))
  }

  lemma MadeOneMore(a: App, steps: seq<seq<Label>>, k: nat, b: App)
    requires AreSteps(a, steps) && k < |steps| && Made(a, steps, k, b) && (b.running || !Idle(b.sys))
    ensures IsAppRun(b, steps[k]) && AppAfter(b, steps[k]).sys.cur == None
    ensures Made(a, steps, k + 1, AppAfter(b, steps[k]))
  {
    NextStep(a, steps, k);
  }

  lemma IdleApp(a: App)
    requires AppInv(a) && Idle(a.sys)
    ensures a.sys.futs[ROOT].st.Done() <==> !a.running
    ensures !a.running ==> a.received == Some(ROOT)
  {
    ArmedCalls(a.sys, ROOT, RECEIVE_RESULT);
  }

  /**
   Whatever the root task and the tasks it creates do: between two steps with no live handle left,
   the runner has been stopped if and only if the root task is finished. So when `run` leaves the
   loop, the root task is finished, `received_fut` is the root task, and no live handle remains.
   */
  lemma RunLeavesTheLoopWithTheRootFinished(es: seq<Label>)
    requires IsAppRun(Started(), es)
    ensures var a := AppAfter(Started(), es);
            && ROOT < |a.sys.futs|
            && (Idle(a.sys) ==> (!a.running <==> a.sys.futs[ROOT].st.Done()))
            && (!a.running ==> a.sys.futs[ROOT].st.Done() && a.received == Some(ROOT))
            && (a.running ==> a.received == None)
  {
    StartedInv();
    AppRun(Started(), es);
    var a := AppAfter(Started(), es);
    ArmedCalls(a.sys, ROOT, RECEIVE_RESULT);
    if Idle(a.sys) { IdleApp(a); }
  }

  // ---------- The function itself ----------

  class Program {
    const loop: PureRuntime.Runtime
    var running: bool
    var received: Option<Id>

    ghost function State(): App
      reads this, loop
    {
      App(loop.State(), running, received)
    }

    constructor ()
      ensures State() == Started() && fresh(loop)
    {
      loop := new PureRuntime.Runtime();
      received := None;
      running := false;
      new;
      StartRun();
      assert Inv(INIT) && Acyclic(INIT);
      var _ := loop.Drive(START);
      running := true;
    }

    method StopLoop()
      modifies this`running
      ensures !running
    {
      running := false;
    }

    method ReceiveResult(fut: Id)
      modifies this`running, this`received
      ensures received == Some(fut) && !running
    {
      received := Some(fut);
      StopLoop();
    }

    /** One label; entering the handle of `receive_result` runs that closure. */
    method Perform(e: Label)
      requires AppInv(State()) && AppEnabled(State(), e)
      modifies this, loop
      ensures State() == AppNext(old(State()), e) && AppInv(State())
    {
      AppStep(State(), e);
      var target := if e.Begin? then Some(loop.handles[e.handle].target) else None;
      var _ := loop.Do(e);
      if target.Some? && target.value.Callback? && target.value.cb == User(RECEIVE_RESULT) {
        ReceiveResult(target.value.fut);
      }
    }

    /** `items_num`, as far as the loop condition needs it. */
    method HasLiveHandle() returns (b: bool)
      requires loop.cur == None
      ensures b <==> !Idle(loop.State())
    {
      b := false;
      for h := 0 to |loop.handles|
        invariant b <==> exists g: HandleId :: g < h && Live(loop.State(), g)
      {
        if !loop.handles[h].cancelled && !loop.handles[h].executed {
          assert Live(loop.State(), h);
          b := true;
        }
      }
    }

    /** `received_fut.result()` */
    method ReceivedResult() returns (result: Option<Outcome>)
      requires AppInv(State()) && Idle(loop.State()) && !running
      ensures result.Some? && Holds(loop.State(), ROOT, result.value)
    {
      IdleApp(State());
      match loop.futs[received.value].st {
        case Success(v, _) => result := Some(Value(v));
        case Failed(e, _) => result := Some(Raised(e));
      }
    }

    /** The labels of one step of the loop */
    method RunStep(es: seq<Label>)
      requires AppInv(State()) && IsAppRun(State(), es)
      modifies this, loop
      ensures State() == AppAfter(old(State()), es) && AppInv(State())
    {
      for k := 0 to |es|
        invariant AppInv(State()) && IsAppRun(State(), es[k..])
        invariant AppAfter(State(), es[k..]) == AppAfter(old(State()), es)
      {
        assert es[k..][1..] == es[k + 1..];
        Perform(es[k]);
      }
    }

    /**
     `run` from the call of `run_loop` on, as far as the steps of the loop are given. Before each step
     the runner looks at the condition, and leaves the loop when it fails for the first time. The result
     is then that of `received_fut`.
     */
    method Run(steps: seq<seq<Label>>) returns (result: Option<Outcome>, ghost made: nat)
      requires State() == Started() && AreSteps(State(), steps)
      modifies this, loop
      ensures Made(Started(), steps, made, State())
      ensures result.Some? <==> !running && Idle(loop.State())
      ensures result.Some? ==> Holds(loop.State(), ROOT, result.value)
      ensures result == None ==> made == |steps|
    {
      StartedInv();
      var k := 0;
      var live := HasLiveHandle();
      while (running || live) && k < |steps|
        invariant k <= |steps| && AppInv(State()) && loop.cur == None
        invariant Made(Started(), steps, k, State()) && (live <==> !Idle(loop.State()))
      {
        MadeOneMore(Started(), steps, k, State());
        RunStep(steps[k]);
        live := HasLiveHandle();
        k := k + 1;
      }
      made := k;
      result := None;
      if !running && !live {
        result := ReceivedResult();
      }
    }
  }
}
