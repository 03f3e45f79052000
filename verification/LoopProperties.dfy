/** What every run of the event loop keeps, whatever its callbacks do. */
module LoopProperties {
  import opened Wrappers
  import opened StableQueue
  import opened LoopMachine

  function RanIds(ran: seq<Call>): (r: seq<nat>)
    ensures |r| == |ran|
  {
    seq(|ran|, i requires 0 <= i < |ran| => ran[i].h)
  }

  /** How often `h` occurs. */
  ghost function Count(hs: seq<nat>, h: nat): nat {
    if hs == [] then 0 else Count(hs[..|hs| - 1], h) + if hs[|hs| - 1] == h then 1 else 0
  }

  // ---------- The invariant ----------

  /** How often `h` occurs in all the places a handle can be in. */
  ghost function Places(l: Loop, h: nat): nat {
    Count(l.ready, h) + Count(Items(l.timed), h) + Count(l.batch, h) + Count(RanIds(l.ran), h) + Count(l.dropped, h)
  }

  /** Each handle ever created is in exactly one place, and there only once. */
  ghost predicate Conserved(l: Loop) {
    forall h: nat :: Places(l, h) == if h < |l.whens| then 1 else 0
  }

  predicate Untimed(whens: seq<Option<real>>, h: nat) {
    h < |whens| && whens[h] == None
  }

  ghost predicate TimesKept(l: Loop) {
    && (forall h <- l.ready :: Untimed(l.whens, h))
    && (forall tm <- l.timed :: tm.item < |l.whens| && l.whens[tm.item] == Some(tm.when))
  }

  /** Those without a time are in the order of their creation. */
  ghost predicate Fifo(whens: seq<Option<real>>, hs: seq<nat>) {
    forall i, j | 0 <= i < j < |hs| && Untimed(whens, hs[i]) && Untimed(whens, hs[j]) :: hs[i] < hs[j]
  }

  ghost predicate Precede(whens: seq<Option<real>>, a: seq<nat>, b: seq<nat>) {
    forall x <- a, y <- b | Untimed(whens, x) && Untimed(whens, y) :: x < y
  }

  ghost predicate InOrder(l: Loop) {
    Fifo(l.whens, RanIds(l.ran) + l.batch + l.ready)
  }

  /** The handle has no time, or its time is `t` or earlier. */
  ghost predicate DueBy(whens: seq<Option<real>>, h: nat, t: real) {
    h < |whens| && (whens[h].Some? ==> whens[h].value <= t)
  }

  ghost predicate OnTime(l: Loop) {
    && l.resolution >= 0.0
    && (forall c <- l.ran :: DueBy(l.whens, c.h, c.at + l.resolution))
    && (forall h <- l.batch :: DueBy(l.whens, h, l.now + l.resolution))
  }

  ghost predicate Inv(l: Loop) {
    && Conserved(l)
    && TimesKept(l)
    && InOrder(l)
    && OnTime(l)
    && (forall h <- l.dropped :: h in l.cancelled)
  }

  /** The `executed` flags tell which handles were invoked. */
  ghost predicate FlagsAgree(l: Loop) {
    forall h: nat :: h in l.executed <==> h in RanIds(l.ran)
  }

  /** Between two steps nothing is left in a batch. */
  ghost predicate AtBoundary(l: Loop) {
    Inv(l) && FlagsAgree(l) && l.batch == []
  }

  // ---------- Lists of handles ----------

  lemma {:induction false} CountConcat(a: seq<nat>, b: seq<nat>, h: nat)
    ensures Count(a + b, h) == Count(a, h) + Count(b, h)
  {
    if b == [] {
      assert a + b == a;
    } else {
      assert (a + b)[..|a + b| - 1] == a + b[..|b| - 1];
      CountConcat(a, b[..|b| - 1], h);
    }
  }

  lemma {:induction false} CountIn(hs: seq<nat>, h: nat)
    ensures h in hs <==> Count(hs, h) > 0
  {
    if hs != [] {
      CountIn(hs[..|hs| - 1], h);
      assert hs == hs[..|hs| - 1] + [hs[|hs| - 1]];
    }
  }

  lemma {:induction false} LiveAndDead(hs: seq<nat>, cancelled: set<nat>, h: nat)
    ensures Count(LiveOf(hs, cancelled), h) == if h in cancelled then 0 else Count(hs, h)
    ensures Count(DeadOf(hs, cancelled), h) == if h in cancelled then Count(hs, h) else 0
  {
    if hs != [] {
      var n, x := |hs| - 1, hs[|hs| - 1];
      var live, dead := LiveOf(hs[..n], cancelled), DeadOf(hs[..n], cancelled);
      LiveAndDead(hs[..n], cancelled, h);
      if x in cancelled {
        assert LiveOf(hs, cancelled) == live;
        CountConcat(dead, [x], h);
      } else {
        assert DeadOf(hs, cancelled) == dead;
        CountConcat(live, [x], h);
      }
    }
  }

  lemma LiveIn(hs: seq<nat>, cancelled: set<nat>)
    ensures forall h: nat :: h in LiveOf(hs, cancelled) <==> h in hs && h !in cancelled
    ensures forall h: nat :: h in DeadOf(hs, cancelled) <==> h in hs && h in cancelled
  {
    forall h: nat
      ensures h in LiveOf(hs, cancelled) <==> h in hs && h !in cancelled
      ensures h in DeadOf(hs, cancelled) <==> h in hs && h in cancelled
    {
      LiveAndDead(hs, cancelled, h);
      CountIn(hs, h);
      CountIn(LiveOf(hs, cancelled), h);
      CountIn(DeadOf(hs, cancelled), h);
    }
  }

  lemma FifoConcat(whens: seq<Option<real>>, a: seq<nat>, b: seq<nat>)
    ensures Fifo(whens, a + b) <==> Fifo(whens, a) && Fifo(whens, b) && Precede(whens, a, b)
  {
    var c := a + b;
    if Fifo(whens, c) {
      forall i, j | 0 <= i < j < |a| && Untimed(whens, a[i]) && Untimed(whens, a[j]) ensures a[i] < a[j] {
        assert c[i] == a[i] && c[j] == a[j];
      }
      forall i, j | 0 <= i < j < |b| && Untimed(whens, b[i]) && Untimed(whens, b[j]) ensures b[i] < b[j] {
        assert c[|a| + i] == b[i] && c[|a| + j] == b[j];
      }
      forall x <- a, y <- b | Untimed(whens, x) && Untimed(whens, y) ensures x < y {
        var i :| 0 <= i < |a| && a[i] == x;
        var j :| 0 <= j < |b| && b[j] == y;
        assert c[i] == x && c[|a| + j] == y;
      }
    }
  }

  lemma {:induction false} FifoLive(whens: seq<Option<real>>, hs: seq<nat>, cancelled: set<nat>)
    requires Fifo(whens, hs)
    ensures Fifo(whens, LiveOf(hs, cancelled))
  {
    if hs != [] {
      var n := |hs| - 1;
      assert hs == hs[..n] + [hs[n]];
      FifoConcat(whens, hs[..n], [hs[n]]);
      FifoLive(whens, hs[..n], cancelled);
      LiveIn(hs[..n], cancelled);
      FifoConcat(whens, LiveOf(hs[..n], cancelled), [hs[n]]);
    }
  }

  lemma FifoOfTimers(whens: seq<Option<real>>, timers: seq<nat>)
    requires forall h <- timers :: !Untimed(whens, h)
    ensures Fifo(whens, timers) && forall a :: Precede(whens, a, timers)
  {
    forall i | 0 <= i < |timers| ensures !Untimed(whens, timers[i]) {
      assert timers[i] in timers;
    }
  }

  lemma {:induction false} DueAndLater(ts: seq<Timer<nat>>, t: real)
    ensures forall tm :: tm in Due(ts, t) <==> tm in ts && tm.when <= t
    ensures forall tm :: tm in Later(ts, t) <==> tm in ts && tm.when > t
  {
    if ts != [] {
      var n := |ts| - 1;
      DueAndLater(ts[..n], t);
      assert ts == ts[..n] + [ts[n]];
    }
  }

  lemma CountItems(ts: seq<Timer<nat>>, x: Timer<nat>, h: nat)
    ensures Count(Items(ts + [x]), h) == Count(Items(ts), h) + if x.item == h then 1 else 0
  {
    assert Items(ts + [x]) == Items(ts) + [x.item];
    CountConcat(Items(ts), [x.item], h);
  }

  lemma {:induction false} CountSplit(ts: seq<Timer<nat>>, t: real, h: nat)
    ensures Count(Items(Due(ts, t)), h) + Count(Items(Later(ts, t)), h) == Count(Items(ts), h)
  {
    if ts != [] {
      var n := |ts| - 1;
      CountSplit(ts[..n], t, h);
      assert ts == ts[..n] + [ts[n]];
      CountItems(ts[..n], ts[n], h);
      CountItems(Due(ts[..n], t), ts[n], h);
      CountItems(Later(ts[..n], t), ts[n], h);
      assert Due(ts[..n], t) + [] == Due(ts[..n], t) && Later(ts[..n], t) + [] == Later(ts[..n], t);
    }
  }

  lemma {:induction false} CountInsert(ts: seq<Timer<nat>>, x: Timer<nat>, h: nat)
    ensures Count(Items(Insert(ts, x)), h) == Count(Items(ts), h) + if x.item == h then 1 else 0
  {
    if ts == [] || ts[|ts| - 1].when <= x.when {
      CountItems(ts, x, h);
    } else {
      var n := |ts| - 1;
      CountInsert(ts[..n], x, h);
      assert ts == ts[..n] + [ts[n]];
      CountItems(ts[..n], ts[n], h);
      CountItems(Insert(ts[..n], x), ts[n], h);
    }
  }

  lemma {:induction false} CountSorted(ts: seq<Timer<nat>>, h: nat)
    ensures Count(Items(StableSort(ts)), h) == Count(Items(ts), h)
  {
    if ts != [] {
      var n := |ts| - 1;
      CountSorted(ts[..n], h);
      CountInsert(StableSort(ts[..n]), ts[n], h);
      assert ts == ts[..n] + [ts[n]];
      CountItems(ts[..n], ts[n], h);
    }
  }

  lemma InItems(ts: seq<Timer<nat>>, h: nat)
    ensures h in Items(ts) <==> exists tm <- ts :: tm.item == h
  {
    if h in Items(ts) {
      var i :| 0 <= i < |ts| && Items(ts)[i] == h;
      assert ts[i] in ts;
    }
    if tm :| tm in ts && tm.item == h {
      var i :| 0 <= i < |ts| && ts[i] == tm;
      assert Items(ts)[i] == h;
    }
  }

  // ---------- Every piece of a step keeps the invariant ----------

  /** A new handle: its number is larger than all others. */
  lemma CreationKeepsInv(l: Loop, r: Loop, when: Option<real>)
    requires Inv(l)
    requires r == if when == None then l.(whens := l.whens + [None], ready := l.ready + [|l.whens|])
                  else l.(whens := l.whens + [when], timed := l.timed + [Timer(when.value, |l.whens|)])
    ensures Inv(r)
  {
    var n := |l.whens|;
    forall h: nat ensures Places(r, h) == Places(l, h) + if h == n then 1 else 0 {
      CountConcat(l.ready, [n], h);
      if when.Some? { CountItems(l.timed, Timer(when.value, n), h); }
    }
    var hs := RanIds(l.ran) + l.batch + l.ready;
    forall i | 0 <= i < |hs| ensures hs[i] < n {
      HandleCreated(l, hs[i]);
    }
    assert RanIds(r.ran) + r.batch + r.ready == if when == None then hs + [n] else hs;
  }

  /** What is in some place has been created. */
  lemma HandleCreated(l: Loop, h: nat)
    requires Conserved(l)
    requires h in l.ready || h in Items(l.timed) || h in l.batch || h in RanIds(l.ran) || h in l.dropped
    ensures h < |l.whens|
  {
    assert Places(l, h) <= 1;
    CountIn(l.ready, h);
    CountIn(Items(l.timed), h);
    CountIn(l.batch, h);
    CountIn(RanIds(l.ran), h);
    CountIn(l.dropped, h);
  }

  lemma ActKeepsInv(l: Loop, a: Action)
    requires Inv(l)
    ensures Inv(Act(l, a))
  {
    var r := Act(l, a);
    if |r.whens| > |l.whens| {
      CreationKeepsInv(l, r, r.whens[|l.whens|]);
    } else {
      assert forall h: nat :: Places(r, h) == Places(l, h);
    }
  }

  lemma {:induction false} ActsKeepInv(l: Loop, script: seq<Action>)
    requires Inv(l)
    ensures Inv(Acts(l, script))
    decreases |script|
  {
    if script != [] && !script[0].Fail? {
      ActKeepsInv(l, script[0]);
      ActsKeepInv(Act(l, script[0]), script[1..]);
    }
  }

  lemma PoppedIds(l: Loop, t: real)
    requires Inv(l) && l.batch == []
    ensures forall h <- Popped(l, t) :: DueBy(l.whens, h, t)
    ensures Fifo(l.whens, RanIds(l.ran)) && Fifo(l.whens, Popped(l, t)) && Precede(l.whens, RanIds(l.ran), Popped(l, t))
  {
    var due := Items(StableSort(Due(l.timed, t)));
    forall h <- due ensures DueBy(l.whens, h, t) && !Untimed(l.whens, h) {
      CountIn(due, h);
      CountSorted(Due(l.timed, t), h);
      CountIn(Items(Due(l.timed, t)), h);
      InItems(Due(l.timed, t), h);
      DueAndLater(l.timed, t);
    }
    FifoOfTimers(l.whens, due);
    assert RanIds(l.ran) + l.batch + l.ready == RanIds(l.ran) + l.ready;
    FifoConcat(l.whens, RanIds(l.ran), l.ready);
    FifoConcat(l.whens, l.ready, due);
  }

  lemma PopPendingConserves(l: Loop, t: real)
    requires Conserved(l) && l.batch == []
    ensures Conserved(PopPending(l, t))
  {
    var r, popped := PopPending(l, t), Popped(l, t);
    forall h: nat ensures Places(r, h) == Places(l, h) {
      LiveAndDead(popped, l.cancelled, h);
      CountConcat(l.ready, Items(StableSort(Due(l.timed, t))), h);
      CountSorted(Due(l.timed, t), h);
      CountSplit(l.timed, t, h);
      CountConcat(l.dropped, DeadOf(popped, l.cancelled), h);
    }
  }

  lemma PopPendingKeepsInv(l: Loop, t: real)
    requires Inv(l) && l.batch == [] && t <= l.now + l.resolution
    ensures Inv(PopPending(l, t))
  {
    var r, popped := PopPending(l, t), Popped(l, t);
    PopPendingConserves(l, t);
    PoppedIds(l, t);
    LiveIn(popped, l.cancelled);
    DueAndLater(l.timed, t);
    FifoLive(l.whens, popped, l.cancelled);
    FifoConcat(l.whens, RanIds(l.ran), r.batch);
    assert RanIds(r.ran) + r.batch + r.ready == RanIds(l.ran) + r.batch;
  }

  lemma SkipKeepsInv(l: Loop)
    requires Inv(l) && l.batch != [] && l.batch[0] in l.cancelled
    ensures Inv(l.(batch := l.batch[1..], dropped := l.dropped + [l.batch[0]]))
  {
    var x, rest := l.batch[0], l.batch[1..];
    var r := l.(batch := rest, dropped := l.dropped + [x]);
    assert l.batch == [x] + rest;
    assert x in l.batch && forall h <- rest :: h in l.batch;
    forall h: nat ensures Places(r, h) == Places(l, h) {
      CountConcat([x], rest, h);
      CountConcat(l.dropped, [x], h);
    }
    var ran, todo := RanIds(l.ran), rest + l.ready;
    assert ran + l.batch + l.ready == ran + ([x] + todo);
    FifoConcat(l.whens, ran, [x] + todo);
    FifoConcat(l.whens, [x], todo);
    FifoConcat(l.whens, ran, todo);
    assert ran + rest + l.ready == ran + todo;
  }

  lemma StartKeepsInv(l: Loop)
    requires Inv(l) && l.batch != []
    ensures Inv(l.(batch := l.batch[1..], ran := l.ran + [Call(l.batch[0], l.now)]))
  {
    var x, rest := l.batch[0], l.batch[1..];
    var r := l.(batch := rest, ran := l.ran + [Call(x, l.now)]);
    assert l.batch == [x] + rest;
    assert x in l.batch && forall h <- rest :: h in l.batch;
    assert RanIds(r.ran) == RanIds(l.ran) + [x];
    forall h: nat ensures Places(r, h) == Places(l, h) {
      CountConcat([x], rest, h);
      CountConcat(RanIds(l.ran), [x], h);
    }
    assert RanIds(r.ran) + r.batch + r.ready == RanIds(l.ran) + l.batch + l.ready;
  }

  lemma InvokeKeepsInv(l: Loop, script: seq<Action>)
    requires Inv(l) && l.batch != []
    ensures Inv(Invoke(l, script))
    ensures FlagsAgree(l) ==> FlagsAgree(Invoke(l, script))
  {
    var x, rest := l.batch[0], l.batch[1..];
    if x in l.cancelled {
      SkipKeepsInv(l);
    } else {
      StartKeepsInv(l);
      var c := l.(batch := rest, ran := l.ran + [Call(x, l.now)]);
      ActsKeepInv(c, script);
      assert RanIds(c.ran) == RanIds(l.ran) + [x];
      var r, s := Invoke(l, script), Acts(c, script);
      assert forall h: nat :: Places(r, h) == Places(s, h);
    }
  }

  lemma {:induction false} RunBatchKeepsInv(l: Loop, scripts: seq<seq<Action>>)
    requires Inv(l) && FlagsAgree(l)
    ensures AtBoundary(RunBatch(l, scripts))
    decreases |l.batch|
  {
    if l.batch != [] {
      InvokeKeepsInv(l, Script(scripts, |l.ran|));
      RunBatchKeepsInv(Invoke(l, Script(scripts, |l.ran|)), scripts);
    }
  }

  lemma {:induction false} RunIOKeepsInv(l: Loop, io: seq<seq<Action>>)
    requires AtBoundary(l)
    ensures AtBoundary(RunIO(l, io))
    decreases |io|
  {
    if io != [] {
      ActsKeepInv(l, io[0]);
      RunIOKeepsInv(Acts(l, io[0]), io[1..]);
    }
  }
}
