/** The pure and the C implementation side by side, on one sequence of labels. */
module BothRuntimes {
  import opened Wrappers
  import opened FutureMachine
  import opened WakeUps
  import opened Reachability
  import opened CSimulation
  import PureRuntime
  import CRuntime

  /** One label in both: the results, and what is to be seen afterwards. */
  method Record(pure: PureRuntime.Runtime, c: CRuntime.Runtime, e: Label)
    returns (pureEntry: (Res, Snapshot), cEntry: (Res, Snapshot))
    requires Inv(pure.State()) && Acyclic(pure.State()) && c.Simulates(pure.State()) && Enabled(pure.State(), e)
    modifies pure, c
    ensures pure.State() == Next(old(pure.State()), e) && c.Simulates(pure.State())
    ensures Inv(pure.State()) && Acyclic(pure.State())
    ensures pureEntry == (Step(old(pure.State()), e).1, PureSnapshot(pure.State()))
    ensures cEntry == (CResult(old(pure.State()), e), PureSnapshot(pure.State()))
  {
    cEntry := c.Record(pure.State(), e);
    var r := pure.Do(e);
    pureEntry := (r, PureSnapshot(Sys(pure.futs, pure.handles, pure.cur, [])));
  }

  /**
   From related states, in particular from two fresh runtimes, every run shows the same snapshot after
   each label in both implementations. The results differ exactly at the labels of `DiffersAt`: where the
   result of a task is set through a promise, and where a coroutine awaits a tuple or a StopIteration.
   */
  method Compare(pure: PureRuntime.Runtime, c: CRuntime.Runtime, es: seq<Label>)
    returns (pureTrace: seq<(Res, Snapshot)>, cTrace: seq<(Res, Snapshot)>)
    requires Inv(pure.State()) && Acyclic(pure.State()) && c.Simulates(pure.State()) && IsRun(pure.State(), es)
    modifies pure, c
    ensures pure.State() == After(old(pure.State()), es) && c.Simulates(pure.State())
    ensures pureTrace == PureTrace(old(pure.State()), es) && cTrace == CTrace(old(pure.State()), es)
    ensures |pureTrace| == |cTrace| == |es|
    ensures forall k | 0 <= k < |es| :: pureTrace[k].1 == cTrace[k].1
    ensures forall k | 0 <= k < |es| :: pureTrace[k].0 != cTrace[k].0 <==> DiffersAt(old(pure.State()), es)[k]
  {
    pureTrace, cTrace := [], [];
    ghost var p := pure.State();
    for k := 0 to |es|
      invariant Inv(pure.State()) && Acyclic(pure.State()) && c.Simulates(pure.State())
      invariant IsRun(pure.State(), es[k..]) && After(pure.State(), es[k..]) == After(p, es)
      invariant pureTrace + PureTrace(pure.State(), es[k..]) == PureTrace(p, es)
      invariant cTrace + CTrace(pure.State(), es[k..]) == CTrace(p, es)
    {
      ghost var q := pure.State();
      UnrollTrace(q, es, k);
      var pureEntry, cEntry := Record(pure, c, es[k]);
      Appended(pureTrace, pureEntry, PureTrace(Next(q, es[k]), es[k + 1..]));
      Appended(cTrace, cEntry, CTrace(Next(q, es[k]), es[k + 1..]));
      pureTrace, cTrace := pureTrace + [pureEntry], cTrace + [cEntry];
    }
    forall k | 0 <= k < |es|
      ensures CTrace(p, es)[k].1 == PureTrace(p, es)[k].1
      ensures CTrace(p, es)[k].0 != PureTrace(p, es)[k].0 <==> DiffersAt(p, es)[k]
    {
      TracesDifferExactly(p, es, k);
    }
  }

  /** Two fresh runtimes are related. */
  method Fresh() returns (pure: PureRuntime.Runtime, c: CRuntime.Runtime)
    ensures fresh(pure) && fresh(c) && pure.State() == INIT && c.Simulates(INIT)
    ensures Inv(INIT) && Acyclic(INIT)
  {
    pure := new PureRuntime.Runtime();
    c := new CRuntime.Runtime();
  }
}
