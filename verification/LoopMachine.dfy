/**
 The event loop of aio/loop/pure/impl.py over the stable list that its scheduler stands for.

 Handles are numbered in the order in which they are created. What callbacks, the selector and
 other threads do is the environment: scripts of actions, the passing of time among them.
 */
module LoopMachine {
  import opened Wrappers
  import opened StableQueue

  datatype Action =
    | Soon                    // call_soon
    | After(timeout: real)    // call_later
    | CancelHandle(h: nat)    // Handle.cancel on a handle the program kept
    | Tick(d: real)           // time passes; the clock never goes back
    | Stop                    // stop_loop
    | Fail                    // raises an Exception, which ends the callback

  /** An invocation of a handle, and the time at which it started. */
  datatype Call = Call(h: nat, at: real)

  datatype Loop = Loop(
    whens: seq<Option<real>>,     // `when` of every handle ever created
    ready: seq<nat>,              // the scheduler: handles without a time,
    timed: seq<Timer<nat>>,       // and timers, both in enqueue order
    cancelled: set<nat>,          // the flags of the handles
    executed: set<nat>,
    batch: seq<nat>,              // popped by the current step and not yet reached
    ran: seq<Call>,               // history: invoked handles
    dropped: seq<nat>,            // history: handles skipped because cancelled
    waits: seq<Option<real>>,     // history: the timeouts given to `select`
    now: real,
    resolution: real,
    run: bool)

  /** What happens around the callbacks of one step. `scripts[n]` is the n-th callback of the run. */
  datatype StepEnv = StepEnv(
    idle: real,                   // before the step reads the clock
    pause: real,                  // between the first and the second reading
    select: seq<Action>,          // while `select` waits
    io: seq<seq<Action>>,         // the I/O callbacks
    scripts: seq<seq<Action>>)

  /** The n-th callback; those beyond the list do nothing. */
  function Script(scripts: seq<seq<Action>>, n: nat): seq<Action> {
    if n < |scripts| then scripts[n] else []
  }

  function Max(a: real, b: real): real {
    if a < b then b else a
  }

  function Ticked(l: Loop, d: real): Loop {
    l.(now := l.now + Max(d, 0.0))
  }

  function CallSoon(l: Loop): Loop {
    l.(whens := l.whens + [None], ready := l.ready + [|l.whens|])
  }

  function CallLater(l: Loop, timeout: real): Loop {
    if timeout == 0.0 then CallSoon(l)
    else l.(whens := l.whens + [Some(l.now + timeout)], timed := l.timed + [Timer(l.now + timeout, |l.whens|)])
  }

  function Act(l: Loop, a: Action): Loop {
    match a
    case Soon => CallSoon(l)
    case After(timeout) => CallLater(l, timeout)
    case CancelHandle(h) => if h < |l.whens| then l.(cancelled := l.cancelled + {h}) else l
    case Tick(d) => Ticked(l, d)
    case Stop => l.(run := false)
    case Fail => l
  }

  /** A callback: its actions up to the first exception, which the loop reports and swallows. */
  function Acts(l: Loop, script: seq<Action>): (r: Loop)
    ensures r.batch == l.batch && r.ran == l.ran && r.dropped == l.dropped
    ensures r.waits == l.waits && r.resolution == l.resolution && r.executed == l.executed
    decreases |script|
  {
    if script == [] || script[0].Fail? then l else Acts(Act(l, script[0]), script[1..])
  }

  function DeadOf(hs: seq<nat>, cancelled: set<nat>): seq<nat> {
    if hs == [] then []
    else DeadOf(hs[..|hs| - 1], cancelled) + if hs[|hs| - 1] in cancelled then [hs[|hs| - 1]] else []
  }

  /** `pop_below_priority` */
  function Popped(l: Loop, t: real): seq<nat> {
    l.ready + Items(StableSort(Due(l.timed, t)))
  }

  /** `pop_pending`: what is popped and not cancelled becomes the batch. */
  function PopPending(l: Loop, t: real): Loop {
    var popped := Popped(l, t);
    l.(ready := [], timed := Later(l.timed, t),
       batch := LiveOf(popped, l.cancelled), dropped := l.dropped + DeadOf(popped, l.cancelled))
  }

  /** `_invoke_handle` of the next handle of the batch */
  function Invoke(l: Loop, script: seq<Action>): (r: Loop)
    requires l.batch != []
    ensures r.batch == l.batch[1..]
  {
    var h := l.batch[0];
    var l1 := l.(batch := l.batch[1..]);
    if h in l.cancelled then l1.(dropped := l.dropped + [h])
    else
      var l2 := Acts(l1.(ran := l.ran + [Call(h, l.now)]), script);
      l2.(executed := l2.executed + {h})
  }

  function RunBatch(l: Loop, scripts: seq<seq<Action>>): Loop
    decreases |l.batch|
  {
    if l.batch == [] then l else RunBatch(Invoke(l, Script(scripts, |l.ran|)), scripts)
  }

  function RunIO(l: Loop, io: seq<seq<Action>>): Loop
    decreases |io|
  {
    if io == [] then l else RunIO(Acts(l, io[0]), io[1..])
  }

  /** What `next_event` may answer: the time of some live timer, or None when there is none. */
  ghost predicate NextEvent(l: Loop, next: Option<real>) {
    match next
    case None => forall tm <- l.timed :: tm.item in l.cancelled
    case Some(w) => exists tm <- l.timed :: tm.item !in l.cancelled && tm.when == w
  }

  /** The timeout for `select`; None is to wait for I/O only. */
  function Wait(l: Loop, next: Option<real>): Option<real> {
    if l.batch != [] then Some(0.0)
    else
      match next
      case None => None
      case Some(w) => Some(Max(w - l.now, 0.0))
  }

  /** Up to when handles count as due. */
  function DueTime(l: Loop): real {
    l.now + l.resolution
  }

  /** The early callbacks, popped at the first reading of the clock. */
  function PopEarly(l: Loop, e: StepEnv): Loop {
    PopPending(Ticked(l, e.idle), DueTime(Ticked(l, e.idle)))
  }

  /** The step up to the point where `select` is called. */
  function BeforeSelect(l: Loop, e: StepEnv): Loop {
    Ticked(PopEarly(l, e), e.pause)
  }

  function AfterSelect(l: Loop, e: StepEnv, next: Option<real>): Loop {
    var l1 := BeforeSelect(l, e);
    Acts(l1.(waits := l1.waits + [Wait(l1, next)]), e.select)
  }

  /** The step up to the point where the late callbacks are popped. */
  function BeforeLate(l: Loop, e: StepEnv, next: Option<real>): Loop {
    RunIO(RunBatch(AfterSelect(l, e, next), e.scripts), e.io)
  }

  /** The late callbacks: what is due at `t` and has not been invoked. */
  function RunLate(l: Loop, t: real, scripts: seq<seq<Action>>): Loop {
    RunBatch(PopPending(l, t), scripts)
  }

  /** `run_step`. What is due is decided by the time after `select`. */
  function RunStep(l: Loop, e: StepEnv, next: Option<real>): Loop {
    RunLate(BeforeLate(l, e, next), DueTime(AfterSelect(l, e, next)), e.scripts)
  }

  /** The handles in the scheduler. */
  function Waiting(l: Loop): seq<nat> {
    l.ready + Items(l.timed)
  }

  /** `items_num` */
  function ItemsNum(l: Loop): nat {
    |LiveOf(Waiting(l), l.cancelled)|
  }

  // ---------- Runs ----------

  function Fresh(now: real, resolution: real): Loop {
    Loop([], [], [], {}, {}, [], [], [], [], now, resolution, false)
  }

  /** One step of a run, with the answer that `next_event` gives in it. */
  datatype Round = Round(env: StepEnv, next: Option<real>)

  function Envs(rounds: seq<Round>): (es: seq<StepEnv>)
    ensures |es| == |rounds|
  {
    if rounds == [] then [] else Envs(rounds[..|rounds| - 1]) + [rounds[|rounds| - 1].env]
  }

  /** The condition of the loop in `run_loop`. */
  predicate KeepsRunning(l: Loop) {
    l.run || ItemsNum(l) > 0
  }

  /** The rounds of `run_loop`, each with an answer that `next_event` may give. */
  ghost predicate IsRun(l: Loop, rounds: seq<Round>)
    decreases |rounds|
  {
    rounds == [] ||
    (&& KeepsRunning(l) && NextEvent(BeforeSelect(l, rounds[0].env), rounds[0].next)
     && IsRun(RunStep(l, rounds[0].env, rounds[0].next), rounds[1..]))
  }

  function AfterRun(l: Loop, rounds: seq<Round>): Loop
    decreases |rounds|
  {
    if rounds == [] then l else AfterRun(RunStep(l, rounds[0].env, rounds[0].next), rounds[1..])
  }

  // ---------- The life of a loop ----------

  /**
   What happens to a loop: the program acts outside of `run_loop`, the runner enters `run_loop` (which
   it refuses while it runs), or makes a round.
   */
  datatype Stage = Outside(script: seq<Action>) | Enter | Turn(round: Round)

  function AfterStage(l: Loop, stage: Stage): Loop {
    match stage
    case Outside(script) => Acts(l, script)
    case Enter => l.(run := true)
    case Turn(round) => RunStep(l, round.env, round.next)
  }

  function AfterStages(l: Loop, stages: seq<Stage>): Loop
    decreases |stages|
  {
    if stages == [] then l else AfterStages(AfterStage(l, stages[0]), stages[1..])
  }

  function Turns(rounds: seq<Round>): (stages: seq<Stage>)
    ensures |stages| == |rounds|
  {
    seq(|rounds|, i requires 0 <= i < |rounds| => Turn(rounds[i]))
  }

  lemma {:induction false} RunExtended(l: Loop, rounds: seq<Round>, round: Round)
    requires IsRun(l, rounds) && KeepsRunning(AfterRun(l, rounds))
    requires NextEvent(BeforeSelect(AfterRun(l, rounds), round.env), round.next)
    ensures IsRun(l, rounds + [round])
    ensures AfterRun(l, rounds + [round]) == RunStep(AfterRun(l, rounds), round.env, round.next)
    decreases |rounds|
  {
    if rounds != [] {
      assert (rounds + [round])[1..] == rounds[1..] + [round];
      RunExtended(RunStep(l, rounds[0].env, rounds[0].next), rounds[1..], round);
    }
  }

  /** From `l0` the runner makes these rounds in these surroundings, and is then at `l`. */
  ghost predicate Follows(l0: Loop, envs: seq<StepEnv>, rounds: seq<Round>, l: Loop) {
    Envs(rounds) == envs && IsRun(l0, rounds) && l == AfterRun(l0, rounds)
  }

  lemma FollowsNone(l: Loop, envs: seq<StepEnv>)
    ensures Follows(l, envs[..0], [], l)
  {
  }

  lemma EnvsNext(envs: seq<StepEnv>, rounds: seq<Round>, next: Option<real>)
    requires |rounds| < |envs| && Envs(rounds) == envs[..|rounds|]
    ensures Envs(rounds + [Round(envs[|rounds|], next)]) == envs[..|rounds| + 1]
  {
    var n, all := |rounds|, rounds + [Round(envs[|rounds|], next)];
    assert all[..|all| - 1] == rounds && all[|all| - 1].env == envs[n];
    assert envs[..n + 1] == envs[..n] + [envs[n]];
  }

  lemma FollowsNext(l0: Loop, envs: seq<StepEnv>, rounds: seq<Round>, l: Loop, next: Option<real>)
    requires |rounds| < |envs| && Follows(l0, envs[..|rounds|], rounds, l) && KeepsRunning(l)
    requires NextEvent(BeforeSelect(l, envs[|rounds|]), next)
    ensures var e := envs[|rounds|];
      Follows(l0, envs[..|rounds| + 1], rounds + [Round(e, next)], RunStep(l, e, next))
  {
    EnvsNext(envs, rounds, next);
    RunExtended(l0, rounds, Round(envs[|rounds|], next));
  }
}
