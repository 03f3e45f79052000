/**
 The life of an event loop moment by moment: every action of a callback, every handle that is called,
 every wait. Results here say what holds at a moment in the middle of a step, and between two of them.
 */
module LoopMoments {
  import opened Wrappers
  import opened StableQueue
  import opened LoopMachine
  import opened LoopProperties
  import opened LoopRuns

  datatype Moment =
    | Does(action: Action)           // of a callback
    | Pops(upTo: real)               // `pop_pending`
    | Skips                          // the next handle of the batch is cancelled
    | Calls                          // it is not, and its callback starts
    | Marks(h: nat)                  // the callback has ended
    | Waits(timeout: Option<real>)   // `select` is called
    | Elapses(d: real)
    | Enters                         // `run_loop` sets the flag

  function Then(l: Loop, m: Moment): Loop {
    match m
    case Does(a) => Act(l, a)
    case Pops(t) => PopPending(l, t)
    case Skips => if l.batch == [] then l else l.(batch := l.batch[1..], dropped := l.dropped + [l.batch[0]])
    case Calls => if l.batch == [] then l else l.(batch := l.batch[1..], ran := l.ran + [Call(l.batch[0], l.now)])
    case Marks(h) => l.(executed := l.executed + {h})
    case Waits(timeout) => l.(waits := l.waits + [timeout])
    case Elapses(d) => Ticked(l, d)
    case Enters => l.(run := true)
  }

  function Thens(l: Loop, ms: seq<Moment>): Loop {
    if ms == [] then l else Then(Thens(l, ms[..|ms| - 1]), ms[|ms| - 1])
  }

  lemma {:induction false} ThensConcat(l: Loop, a: seq<Moment>, b: seq<Moment>)
    ensures Thens(l, a + b) == Thens(Thens(l, a), b)
  {
    if b == [] {
      assert a + b == a;
    } else {
      assert (a + b)[..|a + b| - 1] == a + b[..|b| - 1];
      ThensConcat(l, a, b[..|b| - 1]);
    }
  }

  lemma ThensCons(l: Loop, m: Moment, ms: seq<Moment>)
    ensures Thens(l, [m] + ms) == Thens(Then(l, m), ms)
  {
    assert [m][..0] == [];
    ThensConcat(l, [m], ms);
  }

  lemma OneMoment(l: Loop, m: Moment)
    ensures Thens(l, [m]) == Then(l, m)
  {
    assert [m][..0] == [];
  }

  // ---------- The moments of a life ----------

  function OfScript(script: seq<Action>): seq<Moment> {
    if script == [] || script[0].Fail? then [] else [Does(script[0])] + OfScript(script[1..])
  }

  function OfCall(l: Loop, script: seq<Action>): seq<Moment>
    requires l.batch != []
  {
    if l.batch[0] in l.cancelled then [Skips] else [Calls] + (OfScript(script) + [Marks(l.batch[0])])
  }

  function OfBatch(l: Loop, scripts: seq<seq<Action>>): seq<Moment>
    decreases |l.batch|
  {
    if l.batch == [] then []
    else
      var script := Script(scripts, |l.ran|);
      OfCall(l, script) + OfBatch(Invoke(l, script), scripts)
  }

  function OfIO(io: seq<seq<Action>>): seq<Moment> {
    if io == [] then [] else OfScript(io[0]) + OfIO(io[1..])
  }

  function OfSelect(l: Loop, e: StepEnv, next: Option<real>): seq<Moment> {
    [Waits(Wait(BeforeSelect(l, e), next))] + OfScript(e.select)
  }

  function OfEarly(l: Loop, e: StepEnv, next: Option<real>): seq<Moment> {
    [Elapses(e.idle)] + ([Pops(DueTime(Ticked(l, e.idle)))] + ([Elapses(e.pause)] + OfSelect(l, e, next)))
  }

  function OfStep(l: Loop, e: StepEnv, next: Option<real>): seq<Moment> {
    var l2, l3 := AfterSelect(l, e, next), BeforeLate(l, e, next);
    OfEarly(l, e, next) + (OfBatch(l2, e.scripts) + OfIO(e.io))
    + ([Pops(DueTime(l2))] + OfBatch(PopPending(l3, DueTime(l2)), e.scripts))
  }

  function OfStage(l: Loop, stage: Stage): seq<Moment> {
    match stage
    case Outside(script) => OfScript(script)
    case Enter => [Enters]
    case Turn(round) => OfStep(l, round.env, round.next)
  }

  function OfLife(l: Loop, stages: seq<Stage>): seq<Moment>
    decreases |stages|
  {
    if stages == [] then [] else OfStage(l, stages[0]) + OfLife(AfterStage(l, stages[0]), stages[1..])
  }

  // ---------- They add up to it ----------

  lemma {:induction false} ScriptMoments(l: Loop, script: seq<Action>)
    ensures Thens(l, OfScript(script)) == Acts(l, script)
    decreases |script|
  {
    if script != [] && !script[0].Fail? {
      ThensCons(l, Does(script[0]), OfScript(script[1..]));
      ScriptMoments(Act(l, script[0]), script[1..]);
    }
  }

  lemma SkipMoments(l: Loop, script: seq<Action>)
    requires l.batch != [] && l.batch[0] in l.cancelled
    ensures Thens(l, OfCall(l, script)) == Invoke(l, script)
  {
    OneMoment(l, Skips);
    assert Then(l, Skips) == Invoke(l, script);
  }

  lemma InvokeIsCall(l: Loop, script: seq<Action>)
    requires l.batch != [] && l.batch[0] !in l.cancelled
    ensures Invoke(l, script) == Then(Acts(Then(l, Calls), script), Marks(l.batch[0]))
  {
  }

  lemma CallMoments(l: Loop, script: seq<Action>)
    requires l.batch != [] && l.batch[0] !in l.cancelled
    ensures Thens(l, OfCall(l, script)) == Invoke(l, script)
  {
    InvokeIsCall(l, script);
    CalledMoments(l, Then(l, Calls), l.batch[0], script);
  }

  lemma CalledMoments(l: Loop, l1: Loop, h: nat, script: seq<Action>)
    requires Then(l, Calls) == l1
    ensures Thens(l, [Calls] + (OfScript(script) + [Marks(h)])) == Then(Acts(l1, script), Marks(h))
  {
    ThensCons(l, Calls, OfScript(script) + [Marks(h)]);
    ThensConcat(l1, OfScript(script), [Marks(h)]);
    ScriptMoments(l1, script);
    OneMoment(Acts(l1, script), Marks(h));
  }

  lemma {:induction false} BatchMoments(l: Loop, scripts: seq<seq<Action>>)
    ensures Thens(l, OfBatch(l, scripts)) == RunBatch(l, scripts)
    decreases |l.batch|
  {
    if l.batch != [] {
      var script := Script(scripts, |l.ran|);
      var r := Invoke(l, script);
      if l.batch[0] in l.cancelled { SkipMoments(l, script); } else { CallMoments(l, script); }
      BatchMoments(r, scripts);
      ThensConcat(l, OfCall(l, script), OfBatch(r, scripts));
    }
  }

  lemma {:induction false} IOMoments(l: Loop, io: seq<seq<Action>>)
    ensures Thens(l, OfIO(io)) == RunIO(l, io)
    decreases |io|
  {
    if io != [] {
      ScriptMoments(l, io[0]);
      IOMoments(Acts(l, io[0]), io[1..]);
      ThensConcat(l, OfScript(io[0]), OfIO(io[1..]));
    }
  }

  lemma EarlyMoments(l: Loop, e: StepEnv, next: Option<real>)
    ensures Thens(l, OfEarly(l, e, next)) == AfterSelect(l, e, next)
  {
    var l0, l1, l2 := Ticked(l, e.idle), PopEarly(l, e), BeforeSelect(l, e);
    var a, b, c, select := Elapses(e.idle), Pops(DueTime(l0)), Elapses(e.pause), OfSelect(l, e, next);
    ThensCons(l, a, [b] + ([c] + select));
    ThensCons(l0, b, [c] + select);
    ThensCons(l1, c, select);
    ThensCons(l2, Waits(Wait(l2, next)), OfScript(e.select));
    ScriptMoments(l2.(waits := l2.waits + [Wait(l2, next)]), e.select);
  }

  lemma StepMoments(l: Loop, e: StepEnv, next: Option<real>)
    ensures Thens(l, OfStep(l, e, next)) == RunStep(l, e, next)
  {
    var l2, l3 := AfterSelect(l, e, next), BeforeLate(l, e, next);
    var t := DueTime(l2);
    var early, batch, io := OfEarly(l, e, next), OfBatch(l2, e.scripts), OfIO(e.io);
    var late := OfBatch(PopPending(l3, t), e.scripts);
    EarlyMoments(l, e, next);
    BatchMoments(l2, e.scripts);
    IOMoments(RunBatch(l2, e.scripts), e.io);
    ThensConcat(l2, batch, io);
    ThensConcat(l, early, batch + io);
    BatchMoments(PopPending(l3, t), e.scripts);
    ThensCons(l3, Pops(t), late);
    ThensConcat(l, early + (batch + io), [Pops(t)] + late);
  }

  /** The moments of a life, one after the other, are that life. */
  lemma {:induction false} LifeMoments(l: Loop, stages: seq<Stage>)
    ensures Thens(l, OfLife(l, stages)) == AfterStages(l, stages)
    decreases |stages|
  {
    if stages != [] {
      var l1 := AfterStage(l, stages[0]);
      StageMoments(l, stages[0]);
      LifeMoments(l1, stages[1..]);
      ThensConcat(l, OfStage(l, stages[0]), OfLife(l1, stages[1..]));
    }
  }

  lemma StageMoments(l: Loop, stage: Stage)
    ensures Thens(l, OfStage(l, stage)) == AfterStage(l, stage)
  {
    match stage
    case Outside(script) => ScriptMoments(l, script);
    case Enter => OneMoment(l, Enters);
    case Turn(round) => StepMoments(l, round.env, round.next);
  }
}
