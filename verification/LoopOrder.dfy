/** The order in which one step of the event loop calls its handles. */
module LoopOrder {
  import opened Wrappers
  import opened StableQueue
  import opened LoopMachine
  import opened LoopProperties
  import opened LoopRuns
  import opened LoopMoments

  /** Handles without a time come first, in the order of their creation; then timers by time, ties by creation. */
  predicate Before(whens: seq<Option<real>>, x: nat, y: nat) {
    && x < |whens| && y < |whens|
    && match whens[y]
       case None => whens[x] == None && x < y
       case Some(later) =>
         whens[x].Some? ==> whens[x].value < later || (whens[x].value == later && x < y)
  }

  predicate AllBefore(whens: seq<Option<real>>, hs: seq<nat>) {
    forall i, j | 0 <= i < j < |hs| :: Before(whens, hs[i], hs[j])
  }

  // ---------- Timers are numbered in enqueue order ----------

  predicate Numbered(ts: seq<Timer<nat>>, bound: nat) {
    && (forall i, j | 0 <= i < j < |ts| :: ts[i].item < ts[j].item)
    && (forall i | 0 <= i < |ts| :: ts[i].item < bound)
  }

  lemma {:induction false} LaterNumbered(ts: seq<Timer<nat>>, bound: nat, t: real)
    requires Numbered(ts, bound)
    ensures Numbered(Later(ts, t), bound) && Numbered(Due(ts, t), bound)
  {
    if ts != [] {
      var n := |ts| - 1;
      LaterNumbered(ts[..n], ts[n].item, t);
    }
  }

  lemma MomentNumbers(l: Loop, m: Moment)
    requires Numbered(l.timed, |l.whens|)
    ensures Numbered(Then(l, m).timed, |Then(l, m).whens|)
  {
    if m.Pops? { LaterNumbered(l.timed, |l.whens|, m.upTo); }
  }

  lemma {:induction false} MomentsNumber(l: Loop, ms: seq<Moment>)
    requires Numbered(l.timed, |l.whens|)
    ensures Numbered(Thens(l, ms).timed, |Thens(l, ms).whens|)
  {
    if ms != [] {
      MomentsNumber(l, ms[..|ms| - 1]);
      MomentNumbers(Thens(l, ms[..|ms| - 1]), ms[|ms| - 1]);
    }
  }

  lemma ReachableNumbered(l: Loop)
    requires Reachable(l)
    ensures Numbered(l.timed, |l.whens|)
  {
    var now: real, resolution: real, stages :| resolution >= 0.0 && l == AfterStages(Fresh(now, resolution), stages);
    LifeMoments(Fresh(now, resolution), stages);
    MomentsNumber(Fresh(now, resolution), OfLife(Fresh(now, resolution), stages));
  }

  lemma BeforeLateNumbered(l: Loop, e: StepEnv, next: Option<real>)
    requires Numbered(l.timed, |l.whens|)
    ensures Numbered(BeforeLate(l, e, next).timed, |BeforeLate(l, e, next).whens|)
  {
    var l2 := AfterSelect(l, e, next);
    EarlyMoments(l, e, next);
    MomentsNumber(l, OfEarly(l, e, next));
    BatchMoments(l2, e.scripts);
    MomentsNumber(l2, OfBatch(l2, e.scripts));
    IOMoments(RunBatch(l2, e.scripts), e.io);
    MomentsNumber(RunBatch(l2, e.scripts), OfIO(e.io));
  }

  // ---------- A batch is in order ----------

  predicate Precedes(a: Timer<nat>, b: Timer<nat>) {
    a.when < b.when || (a.when == b.when && a.item < b.item)
  }

  predicate Ordered(ts: seq<Timer<nat>>) {
    forall i, j | 0 <= i < j < |ts| :: Precedes(ts[i], ts[j])
  }

  lemma {:induction false} InsertKeeps(sorted: seq<Timer<nat>>, x: Timer<nat>)
    ensures forall tm :: tm in Insert(sorted, x) <==> tm in sorted || tm == x
  {
    if sorted != [] && sorted[|sorted| - 1].when > x.when {
      var n := |sorted| - 1;
      assert sorted == sorted[..n] + [sorted[n]];
      InsertKeeps(sorted[..n], x);
    }
  }

  lemma OrderedNext(ts: seq<Timer<nat>>, x: Timer<nat>)
    requires Ordered(ts) && forall tm <- ts :: Precedes(tm, x)
    ensures Ordered(ts + [x])
  {
    forall i | 0 <= i < |ts| ensures Precedes(ts[i], x) { assert ts[i] in ts; }
  }

  lemma {:induction false} InsertOrdered(sorted: seq<Timer<nat>>, x: Timer<nat>)
    requires Ordered(sorted) && forall tm <- sorted :: tm.item < x.item
    ensures Ordered(Insert(sorted, x))
  {
    var n := |sorted| - 1;
    if sorted == [] || sorted[n].when <= x.when {
      forall tm | tm in sorted ensures Precedes(tm, x) {
        var i :| 0 <= i < |sorted| && sorted[i] == tm;
        assert i < n ==> Precedes(sorted[i], sorted[n]);
      }
      OrderedNext(sorted, x);
    } else {
      InsertOrdered(sorted[..n], x);
      InsertKeeps(sorted[..n], x);
      forall tm | tm in Insert(sorted[..n], x) ensures Precedes(tm, sorted[n]) {
        if tm != x { var i :| 0 <= i < n && sorted[..n][i] == tm; }
      }
      OrderedNext(Insert(sorted[..n], x), sorted[n]);
    }
  }

  lemma {:induction false} SortOrders(ts: seq<Timer<nat>>, bound: nat)
    requires Numbered(ts, bound)
    ensures Ordered(StableSort(ts)) && forall tm :: tm in StableSort(ts) <==> tm in ts
  {
    if ts != [] {
      var n := |ts| - 1;
      assert ts == ts[..n] + [ts[n]];
      SortOrders(ts[..n], ts[n].item);
      InsertKeeps(StableSort(ts[..n]), ts[n]);
      InsertOrdered(StableSort(ts[..n]), ts[n]);
    }
  }

  lemma ReadyOrdered(l: Loop)
    requires Inv(l) && l.batch == []
    ensures AllBefore(l.whens, l.ready)
  {
    assert RanIds(l.ran) + l.batch + l.ready == RanIds(l.ran) + l.ready;
    FifoConcat(l.whens, RanIds(l.ran), l.ready);
    forall i | 0 <= i < |l.ready| ensures Untimed(l.whens, l.ready[i]) { assert l.ready[i] in l.ready; }
  }

  lemma ItemsOrdered(whens: seq<Option<real>>, ts: seq<Timer<nat>>)
    requires Ordered(ts) && forall tm <- ts :: tm.item < |whens| && whens[tm.item] == Some(tm.when)
    ensures AllBefore(whens, Items(ts))
  {
    forall i, j | 0 <= i < j < |ts| ensures Before(whens, Items(ts)[i], Items(ts)[j]) {
      assert ts[i] in ts && ts[j] in ts && Precedes(ts[i], ts[j]);
    }
  }

  lemma UntimedFirst(whens: seq<Option<real>>, a: seq<nat>, b: seq<nat>)
    requires AllBefore(whens, a) && AllBefore(whens, b)
    requires (forall h <- a :: Untimed(whens, h)) && forall h <- b :: h < |whens| && !Untimed(whens, h)
    ensures AllBefore(whens, a + b)
  {
    forall i, j | 0 <= i < |a| && 0 <= j < |b| ensures Before(whens, a[i], b[j]) { assert a[i] in a && b[j] in b; }
  }

  lemma PoppedOrdered(l: Loop, t: real)
    requires Inv(l) && l.batch == [] && Numbered(l.timed, |l.whens|)
    ensures AllBefore(l.whens, Popped(l, t))
  {
    var due := StableSort(Due(l.timed, t));
    LaterNumbered(l.timed, |l.whens|, t);
    SortOrders(Due(l.timed, t), |l.whens|);
    DueAndLater(l.timed, t);
    ReadyOrdered(l);
    ItemsOrdered(l.whens, due);
    forall h | h in Items(due) ensures h < |l.whens| && !Untimed(l.whens, h) { InItems(due, h); }
    UntimedFirst(l.whens, l.ready, Items(due));
  }

  lemma {:induction false} LiveInOrder(whens: seq<Option<real>>, hs: seq<nat>, cancelled: set<nat>)
    requires AllBefore(whens, hs)
    ensures AllBefore(whens, LiveOf(hs, cancelled))
  {
    if hs != [] {
      var n := |hs| - 1;
      assert hs == hs[..n] + [hs[n]];
      LiveInOrder(whens, hs[..n], cancelled);
      LiveIn(hs[..n], cancelled);
      var live := LiveOf(hs[..n], cancelled);
      forall i | 0 <= i < |live| ensures Before(whens, live[i], hs[n]) {
        assert live[i] in live;
        var k :| 0 <= k < n && hs[..n][k] == live[i];
        assert hs[k] == live[i];
      }
    }
  }

  lemma BatchInOrder(l: Loop, t: real)
    requires Inv(l) && l.batch == [] && Numbered(l.timed, |l.whens|)
    ensures AllBefore(l.whens, PopPending(l, t).batch)
  {
    PoppedOrdered(l, t);
    LiveInOrder(l.whens, Popped(l, t), l.cancelled);
  }

  // ---------- and is called in that order ----------

  lemma BeforeStays(whens: seq<Option<real>>, whens': seq<Option<real>>, hs: seq<nat>)
    requires AllBefore(whens, hs) && whens <= whens'
    ensures AllBefore(whens', hs)
  {
    forall i, j | 0 <= i < j < |hs| ensures Before(whens', hs[i], hs[j]) {
      assert Before(whens, hs[i], hs[j]);
    }
  }

  /** The handles called by the rest of a batch, in the order of the calls. */
  function CalledSince(l: Loop, r: Loop): (hs: seq<nat>)
    requires l.ran <= r.ran
  {
    RanIds(r.ran)[|l.ran|..]
  }

  lemma {:induction false} BatchIsCalledInOrder(l: Loop, scripts: seq<seq<Action>>)
    requires AllBefore(l.whens, l.batch)
    ensures l.ran <= RunBatch(l, scripts).ran && l.whens <= RunBatch(l, scripts).whens
    ensures AllBefore(RunBatch(l, scripts).whens, CalledSince(l, RunBatch(l, scripts)))
    ensures forall h <- CalledSince(l, RunBatch(l, scripts)) :: h in l.batch
    decreases |l.batch|
  {
    RunBatchExtends(l, scripts);
    if l.batch != [] {
      var l1, r := Invoke(l, Script(scripts, |l.ran|)), RunBatch(l, scripts);
      InvokeExtends(l, Script(scripts, |l.ran|));
      assert l.batch == [l.batch[0]] + l1.batch;
      BeforeStays(l.whens, l1.whens, l1.batch);
      BatchIsCalledInOrder(l1, scripts);
      FirstCall(l, l1, r);
    }
  }

  lemma FirstCall(l: Loop, l1: Loop, r: Loop)
    requires l.batch != [] && l.batch == [l.batch[0]] + l1.batch && AllBefore(l.whens, l.batch)
    requires l1.ran == l.ran || (l1.ran <= r.ran && |l1.ran| == |l.ran| + 1 && l1.ran[|l.ran|].h == l.batch[0])
    requires l.ran <= l1.ran <= r.ran && l.whens <= r.whens
    requires AllBefore(r.whens, CalledSince(l1, r)) && forall h <- CalledSince(l1, r) :: h in l1.batch
    ensures AllBefore(r.whens, CalledSince(l, r)) && forall h <- CalledSince(l, r) :: h in l.batch
  {
    if l1.ran != l.ran {
      var x, rest := l.batch[0], CalledSince(l1, r);
      assert CalledSince(l, r) == [x] + rest;
      forall i | 0 <= i < |rest| ensures Before(r.whens, x, rest[i]) {
        assert rest[i] in l1.batch;
        var k :| 0 <= k < |l1.batch| && l1.batch[k] == rest[i];
        assert l.batch[k + 1] == rest[i] && Before(l.whens, l.batch[0], l.batch[k + 1]);
      }
    }
  }

  /**
   The handles that a step calls early, and those that it calls late, are called in order: `call_soon`
   first, as created, then timers by their time, and timers of one time as created.
   */
  lemma StepCallsInOrder(l: Loop, e: StepEnv, next: Option<real>)
    requires Reachable(l)
    ensures var l2, l3, r := AfterSelect(l, e, next), BeforeLate(l, e, next), RunStep(l, e, next);
      && l2.ran <= l3.ran <= r.ran && l2.ran == l.ran
      && AllBefore(r.whens, CalledSince(l2, l3)) && AllBefore(r.whens, CalledSince(l3, r))
  {
    var l0, l2, l3, r := Ticked(l, e.idle), AfterSelect(l, e, next), BeforeLate(l, e, next), RunStep(l, e, next);
    ReachableInv(l);
    ReachableNumbered(l);
    TimePasses(l, e.idle);
    BatchInOrder(l0, DueTime(l0));
    EarlyInOrder(l, e, next);
    StepExtends(l, e, next);
    BeforeStays(l3.whens, r.whens, CalledSince(l2, l3));
    BeforeLateKeepsInv(l, e, next);
    BeforeLateNumbered(l, e, next);
    BatchInOrder(l3, DueTime(l2));
    BatchIsCalledInOrder(PopPending(l3, DueTime(l2)), e.scripts);
  }

  lemma EarlyInOrder(l: Loop, e: StepEnv, next: Option<real>)
    requires AllBefore(l.whens, PopEarly(l, e).batch)
    ensures var l2, l3 := AfterSelect(l, e, next), BeforeLate(l, e, next);
      l2.ran == l.ran && l2.ran <= l3.ran && AllBefore(l3.whens, CalledSince(l2, l3))
  {
    var l2, l3 := AfterSelect(l, e, next), BeforeLate(l, e, next);
    var b := RunBatch(l2, e.scripts);
    AfterSelectExtends(l, e, next);
    BeforeStays(l.whens, l2.whens, l2.batch);
    BatchIsCalledInOrder(l2, e.scripts);
    RunIOExtends(b, e.io);
    IOCallsNone(b, e.io);
    BeforeStays(b.whens, l3.whens, CalledSince(l2, b));
  }

  lemma {:induction false} IOCallsNone(l: Loop, io: seq<seq<Action>>)
    ensures RunIO(l, io).ran == l.ran
    decreases |io|
  {
    if io != [] { IOCallsNone(Acts(l, io[0]), io[1..]); }
  }
}
