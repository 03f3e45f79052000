/**
 What a priority queue with tie-breaking ids stands for: a list in enqueue order that is popped
 by a stable sort. Items with the lowest priority of all are kept in a list of their own.
 */
module StableQueue {

  /** An item with its priority; for a handle, the time at which it is due. */
  datatype Timer<T> = Timer(when: real, item: T)

  /** The timers due at `t`, in enqueue order. */
  function Due<T>(ts: seq<Timer<T>>, t: real): seq<Timer<T>> {
    if ts == [] then []
    else
      var last := ts[|ts| - 1];
      Due(ts[..|ts| - 1], t) + if last.when <= t then [last] else []
  }

  /** The timers not yet due at `t`, in enqueue order. */
  function Later<T>(ts: seq<Timer<T>>, t: real): seq<Timer<T>> {
    if ts == [] then []
    else
      var last := ts[|ts| - 1];
      Later(ts[..|ts| - 1], t) + if last.when <= t then [] else [last]
  }

  /** Inserts `x` behind everything that is due no later. */
  function Insert<T>(sorted: seq<Timer<T>>, x: Timer<T>): (r: seq<Timer<T>>)
    ensures |r| == |sorted| + 1
  {
    if sorted == [] || sorted[|sorted| - 1].when <= x.when then sorted + [x]
    else Insert(sorted[..|sorted| - 1], x) + [sorted[|sorted| - 1]]
  }

  /** The stable sort by time: ties keep their order. */
  function StableSort<T>(ts: seq<Timer<T>>): (r: seq<Timer<T>>)
    ensures |r| == |ts|
  {
    if ts == [] then [] else Insert(StableSort(ts[..|ts| - 1]), ts[|ts| - 1])
  }

  function Items<T>(ts: seq<Timer<T>>): (r: seq<T>)
    ensures |r| == |ts|
  {
    seq(|ts|, i requires 0 <= i < |ts| => ts[i].item)
  }

  predicate Sorted<T>(ts: seq<Timer<T>>) {
    forall i, j | 0 <= i < j < |ts| :: ts[i].when <= ts[j].when
  }

  /** The items that are not cancelled, in order. */
  function LiveOf<T(==)>(hs: seq<T>, cancelled: set<T>): seq<T> {
    if hs == [] then []
    else LiveOf(hs[..|hs| - 1], cancelled) + if hs[|hs| - 1] in cancelled then [] else [hs[|hs| - 1]]
  }

  // ---------- The sort is a sort, and stable ----------

  lemma NoneAfter<T>(r: seq<Timer<T>>, ts: seq<Timer<T>>, x: Timer<T>, w: real)
    requires multiset(r) == multiset(ts) + multiset{x} && x.when <= w && forall tm <- ts :: tm.when <= w
    ensures forall i | 0 <= i < |r| :: r[i].when <= w
  {
    forall i | 0 <= i < |r| ensures r[i].when <= w {
      assert r[i] in multiset(r);
      assert r[i] == x || r[i] in ts;
    }
  }

  lemma {:induction false} InsertSorted<T>(sorted: seq<Timer<T>>, x: Timer<T>)
    requires Sorted(sorted)
    ensures Sorted(Insert(sorted, x))
    ensures multiset(Insert(sorted, x)) == multiset(sorted) + multiset{x}
  {
    if sorted != [] && sorted[|sorted| - 1].when > x.when {
      var n := |sorted| - 1;
      InsertSorted(sorted[..n], x);
      NoneAfter(Insert(sorted[..n], x), sorted[..n], x, sorted[n].when);
      assert sorted == sorted[..n] + [sorted[n]];
    }
  }

  lemma {:induction false} StableSortSorts<T>(ts: seq<Timer<T>>)
    ensures Sorted(StableSort(ts)) && multiset(StableSort(ts)) == multiset(ts)
  {
    if ts != [] {
      var n := |ts| - 1;
      StableSortSorts(ts[..n]);
      InsertSorted(StableSort(ts[..n]), ts[n]);
      assert ts == ts[..n] + [ts[n]];
    }
  }

  /** The items due at exactly `w`, in order. */
  function At<T>(ts: seq<Timer<T>>, w: real): seq<Timer<T>> {
    if ts == [] then []
    else At(ts[..|ts| - 1], w) + if ts[|ts| - 1].when == w then [ts[|ts| - 1]] else []
  }

  lemma {:induction false} InsertStable<T>(sorted: seq<Timer<T>>, x: Timer<T>, w: real)
    requires Sorted(sorted)
    ensures At(Insert(sorted, x), w) == At(sorted, w) + if x.when == w then [x] else []
  {
    var n := |sorted| - 1;
    if sorted == [] || sorted[n].when <= x.when {
      assert (sorted + [x])[..|sorted|] == sorted;
    } else {
      InsertStable(sorted[..n], x, w);
      var r := Insert(sorted[..n], x);
      assert (r + [sorted[n]])[..|r|] == r;
    }
  }

  /** The timers of one time come out in the order in which they went in. */
  lemma {:induction false} StableSortIsStable<T>(ts: seq<Timer<T>>, w: real)
    ensures At(StableSort(ts), w) == At(ts, w)
  {
    if ts != [] {
      var n := |ts| - 1;
      StableSortIsStable(ts[..n], w);
      StableSortSorts(ts[..n]);
      InsertStable(StableSort(ts[..n]), ts[n], w);
    }
  }

  // ---------- Splitting, and renaming items ----------

  lemma {:induction false} SplitConcat<T>(a: seq<Timer<T>>, b: seq<Timer<T>>, t: real)
    ensures Due(a + b, t) == Due(a, t) + Due(b, t)
    ensures Later(a + b, t) == Later(a, t) + Later(b, t)
  {
    if b == [] {
      assert a + b == a;
    } else {
      var n := |b| - 1;
      assert (a + b)[..|a + b| - 1] == a + b[..n];
      SplitConcat(a, b[..n], t);
    }
  }

  lemma {:induction false} SplitIsSubset<T>(ts: seq<Timer<T>>, t: real)
    ensures forall tm <- Due(ts, t) :: tm in ts
    ensures forall tm <- Later(ts, t) :: tm in ts
  {
    if ts != [] { SplitIsSubset(ts[..|ts| - 1], t); }
  }

  function Without<T>(s: seq<T>, j: nat): seq<T>
    requires j < |s|
  {
    s[..j] + s[j + 1..]
  }

  lemma WithoutOne<T>(s: seq<T>, j: nat)
    requires j < |s|
    ensures multiset(Without(s, j)) == multiset(s) - multiset{s[j]}
  {
    assert s == s[..j] + [s[j]] + s[j + 1..];
  }

  lemma SplitAround<T>(ts: seq<Timer<T>>, j: nat, t: real)
    requires j < |ts|
    ensures Due(ts, t) == Due(ts[..j], t) + Due([ts[j]], t) + Due(ts[j + 1..], t)
    ensures Later(ts, t) == Later(ts[..j], t) + Later([ts[j]], t) + Later(ts[j + 1..], t)
  {
    var a, x, b := ts[..j], [ts[j]], ts[j + 1..];
    SplitConcat(a + x, b, t);
    SplitConcat(a, x, t);
    assert ts == a + x + b;
  }

  lemma SplitWithout<T>(ts: seq<Timer<T>>, j: nat, t: real)
    requires j < |ts|
    ensures multiset(Due(ts, t)) == multiset(Due(Without(ts, j), t)) + multiset(Due([ts[j]], t))
    ensures multiset(Later(ts, t)) == multiset(Later(Without(ts, j), t)) + multiset(Later([ts[j]], t))
  {
    SplitAround(ts, j, t);
    SplitConcat(ts[..j], ts[j + 1..], t);
  }

  /** Splitting at a time does not depend on the order of the timers. */
  lemma {:induction false} SplitPermuted<T>(a: seq<Timer<T>>, b: seq<Timer<T>>, t: real)
    requires multiset(a) == multiset(b)
    ensures multiset(Due(a, t)) == multiset(Due(b, t))
    ensures multiset(Later(a, t)) == multiset(Later(b, t))
    decreases |a|
  {
    if a == [] {
      assert |multiset(b)| == 0;
    } else {
      assert a[0] in multiset(b);
      var j :| 0 <= j < |b| && b[j] == a[0];
      WithoutOne(a, 0);
      WithoutOne(b, j);
      SplitPermuted(Without(a, 0), Without(b, j), t);
      SplitWithout(a, 0, t);
      SplitWithout(b, j, t);
    }
  }

  lemma {:induction false} SplitUniform<T>(ts: seq<Timer<T>>, t: real)
    ensures (forall x <- ts :: x.when <= t) ==> Due(ts, t) == ts && Later(ts, t) == []
    ensures (forall x <- ts :: x.when > t) ==> Due(ts, t) == [] && Later(ts, t) == ts
  {
    if ts != [] {
      var n := |ts| - 1;
      SplitUniform(ts[..n], t);
      assert ts == ts[..n] + [ts[n]];
    }
  }

  /** The same timers, with each item replaced. */
  function Map<A, B>(f: A -> B, ts: seq<Timer<A>>): (r: seq<Timer<B>>)
    ensures |r| == |ts|
  {
    seq(|ts|, i requires 0 <= i < |ts| => Timer(ts[i].when, f(ts[i].item)))
  }

  lemma {:induction false} DueMap<A, B>(f: A -> B, ts: seq<Timer<A>>, t: real)
    ensures Due(Map(f, ts), t) == Map(f, Due(ts, t))
    ensures Later(Map(f, ts), t) == Map(f, Later(ts, t))
  {
    if ts != [] {
      var n := |ts| - 1;
      DueMap(f, ts[..n], t);
      assert Map(f, ts)[..n] == Map(f, ts[..n]);
    }
  }

  lemma {:induction false} InsertMap<A, B>(f: A -> B, ts: seq<Timer<A>>, x: Timer<A>)
    ensures Insert(Map(f, ts), Timer(x.when, f(x.item))) == Map(f, Insert(ts, x))
  {
    if ts != [] && ts[|ts| - 1].when > x.when {
      var n := |ts| - 1;
      InsertMap(f, ts[..n], x);
      assert Map(f, ts)[..n] == Map(f, ts[..n]);
    }
  }

  lemma {:induction false} StableSortMap<A, B>(f: A -> B, ts: seq<Timer<A>>)
    ensures StableSort(Map(f, ts)) == Map(f, StableSort(ts))
  {
    if ts != [] {
      var n := |ts| - 1;
      StableSortMap(f, ts[..n]);
      assert Map(f, ts)[..n] == Map(f, ts[..n]);
      InsertMap(f, StableSort(ts[..n]), ts[n]);
    }
  }
}
