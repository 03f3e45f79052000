/**
 aio/loop/pure/scheduler.py: a ready queue and a heap of timers. Both classes are proved against
 the stable list of StableQueue; the heap is visible only in what `next_event` answers.
 */
module Scheduler {
  import opened Wrappers
  import opened StableQueue
  import opened Heap

  /** A call that the loop has been asked to make. `id` stands for the object's identity. */
  class Handle {
    const id: nat
    const when: Option<real>
    var executed: bool
    var cancelled: bool

    constructor (id: nat, when: Option<real>)
      ensures this.id == id && this.when == when && !executed && !cancelled
    {
      this.id, this.when, executed, cancelled := id, when, false, false;
    }

    method Cancel()
      modifies this`cancelled
      ensures cancelled
    {
      cancelled := true;
    }
  }

  // ---------- Tie-breaking ids make the heap stable ----------

  function Untagged<T>(es: seq<Entry<T>>): (r: seq<Timer<T>>)
    ensures |r| == |es|
  {
    seq(|es|, i requires 0 <= i < |es| => Timer(es[i].when, es[i].item.1))
  }

  lemma UntaggedIsMap<T>(es: seq<Entry<T>>) returns (f: ((nat, T)) -> T)
    ensures forall xs: seq<Entry<T>> :: Untagged(xs) == Map(f, xs)
  {
    f := (p: (nat, T)) => p.1;
  }

  ghost predicate IdsIncrease<T>(es: seq<Entry<T>>, bound: nat) {
    && (forall i, j | 0 <= i < j < |es| :: es[i].item.0 < es[j].item.0)
    && (forall i | 0 <= i < |es| :: es[i].item.0 < bound)
  }

  ghost predicate StrictlySorted<T>(es: seq<Entry<T>>) {
    forall i, j | 0 <= i < j < |es| :: Less(es[i], es[j])
  }

  lemma AllLess<T>(r: seq<Entry<T>>, es: seq<Entry<T>>, x: Entry<T>, last: Entry<T>)
    requires multiset(r) == multiset(es) + multiset{x} && Less(x, last) && forall e <- es :: Less(e, last)
    ensures forall i | 0 <= i < |r| :: Less(r[i], last)
  {
    forall i | 0 <= i < |r| ensures Less(r[i], last) {
      assert r[i] in multiset(r);
      assert r[i] == x || r[i] in es;
    }
  }

  lemma {:induction false} InsertStrict<T>(sorted: seq<Entry<T>>, x: Entry<T>)
    requires StrictlySorted(sorted) && forall i | 0 <= i < |sorted| :: sorted[i].item.0 < x.item.0
    ensures StrictlySorted(Insert(sorted, x))
    ensures multiset(Insert(sorted, x)) == multiset(sorted) + multiset{x}
  {
    if sorted != [] && sorted[|sorted| - 1].when > x.when {
      var n := |sorted| - 1;
      InsertStrict(sorted[..n], x);
      AllLess(Insert(sorted[..n], x), sorted[..n], x, sorted[n]);
      assert sorted == sorted[..n] + [sorted[n]];
    }
  }

  /** On entries with increasing ids the stable sort orders by time and then by id. */
  lemma {:induction false} StableSortStrict<T>(es: seq<Entry<T>>, bound: nat)
    requires IdsIncrease(es, bound)
    ensures StrictlySorted(StableSort(es)) && multiset(StableSort(es)) == multiset(es)
  {
    if es != [] {
      var n := |es| - 1;
      StableSortStrict(es[..n], es[n].item.0);
      var r := StableSort(es[..n]);
      forall i | 0 <= i < |r| ensures r[i].item.0 < es[n].item.0 {
        assert r[i] in multiset(r);
        assert r[i] in es[..n];
      }
      InsertStrict(r, es[n]);
      assert es == es[..n] + [es[n]];
    }
  }

  lemma {:induction false} StrictlySortedUnique<T>(a: seq<Entry<T>>, b: seq<Entry<T>>)
    requires StrictlySorted(a) && StrictlySorted(b) && multiset(a) == multiset(b)
    ensures a == b
  {
    if a == [] {
      assert |multiset(b)| == 0;
    } else {
      SameFirst(a, b);
      assert a == [a[0]] + a[1..] && b == [b[0]] + b[1..];
      assert multiset(a[1..]) == multiset(a) - multiset{a[0]};
      assert multiset(b[1..]) == multiset(b) - multiset{b[0]};
      StrictlySortedUnique(a[1..], b[1..]);
    }
  }

  lemma SameFirst<T>(a: seq<Entry<T>>, b: seq<Entry<T>>)
    requires StrictlySorted(a) && StrictlySorted(b) && multiset(a) == multiset(b) && a != []
    ensures b != [] && a[0] == b[0]
  {
    assert a[0] in multiset(b);
    var j :| 0 <= j < |b| && b[j] == a[0];
    assert b[0] in multiset(a);
    var i :| 0 <= i < |a| && a[i] == b[0];
  }

  lemma IdsAppend<T>(es: seq<Entry<T>>, x: Entry<T>, bound: nat)
    requires IdsIncrease(es, x.item.0) && x.item.0 < bound
    ensures IdsIncrease(es, bound) && IdsIncrease(es + [x], bound)
  {
  }

  lemma {:induction false} DueKeepsIds<T>(es: seq<Entry<T>>, t: real, bound: nat)
    requires IdsIncrease(es, bound)
    ensures IdsIncrease(Due(es, t), bound) && IdsIncrease(Later(es, t), bound)
  {
    if es != [] {
      var n := |es| - 1;
      DueKeepsIds(es[..n], t, es[n].item.0);
      IdsAppend(Due(es[..n], t), es[n], bound);
      IdsAppend(Later(es[..n], t), es[n], bound);
      assert Due(es[..n], t) + [] == Due(es[..n], t) && Later(es[..n], t) + [] == Later(es[..n], t);
    }
  }

  /** The entry may stay where it is appended. */
  ghost predicate Behind<T>(heap: seq<Entry<T>>, e: Entry<T>) {
    heap == [] || !Less(e, heap[Parent(|heap|)])
  }

  /** The heap. `entries` lists what is in it in the order in which it was enqueued. */
  class PriorityQueue<T> {
    var minPriority: seq<T>
    var prioritized: seq<Entry<T>>
    var ids: nat
    ghost var entries: seq<Entry<T>>

    ghost predicate Valid()
      reads this
    {
      Ordered(prioritized) && multiset(prioritized) == multiset(entries) && IdsIncrease(entries, ids)
    }

    /** The timers, in the order in which they were enqueued. */
    ghost function Timed(): seq<Timer<T>>
      reads this
    {
      Untagged(entries)
    }

    constructor (minPriority: seq<T>, items: seq<Timer<T>>)
      ensures Valid() && this.minPriority == minPriority && Timed() == items
      ensures items == [] ==> prioritized == [] && ids == 0
    {
      this.minPriority, prioritized, ids, entries := minPriority, [], 0, [];
      new;
      for k := 0 to |items|
        invariant ids == k && prioritized == entries && |entries| == k
        invariant this.minPriority == minPriority
        invariant forall i | 0 <= i < k :: entries[i] == Timer(items[i].when, (i, items[i].item))
      {
        prioritized := prioritized + [Timer(items[k].when, (ids, items[k].item))];
        entries := prioritized;
        ids := ids + 1;
      }
      prioritized := Heapify(prioritized);
      assert |multiset(prioritized)| == |items|;
    }

    method Enqueue(item: T, priority: Option<real>)
      requires Valid()
      modifies this
      ensures Valid() && ids == old(ids) + if priority.Some? then 1 else 0
      ensures priority == None ==> minPriority == old(minPriority) + [item] && Timed() == old(Timed())
      ensures priority.Some? ==>
        minPriority == old(minPriority) && Timed() == old(Timed()) + [Timer(priority.value, item)]
      ensures priority.Some? ==>
        multiset(prioritized) == multiset(old(prioritized)) + multiset{Timer(priority.value, (old(ids), item))}
      ensures priority.Some? && Behind(old(prioritized), Timer(priority.value, (old(ids), item))) ==>
        prioritized == old(prioritized) + [Timer(priority.value, (old(ids), item))]
    {
      match priority {
        case None =>
          minPriority := minPriority + [item];
        case Some(p) =>
          var entry := Timer(p, (ids, item));
          ids := ids + 1;
          prioritized := Push(prioritized, entry);
          entries := entries + [entry];
          assert Untagged(entries) == Untagged(old(entries)) + [Timer(p, item)];
      }
    }

    /** `_pop_prioritized_low` */
    method PopPrioritizedLow(threshold: real) returns (newReady: seq<T>)
      requires Valid()
      modifies this`prioritized, this`entries
      ensures Valid()
      ensures newReady == Items(StableSort(Due(old(Timed()), threshold)))
      ensures Timed() == Later(old(Timed()), threshold)
    {
      newReady, prioritized := PopWhileLow(prioritized, threshold, entries, ids);
      entries := Later(entries, threshold);
    }

    /** `pop_below_priority` */
    method PopBelowPriority(threshold: real) returns (items: seq<T>)
      requires Valid()
      modifies this
      ensures Valid() && ids == old(ids)
      ensures items == old(minPriority) + Items(StableSort(Due(old(Timed()), threshold)))
      ensures minPriority == [] && Timed() == Later(old(Timed()), threshold)
    {
      var oldMinPriority := minPriority;
      minPriority := [];
      var low := PopPrioritizedLow(threshold);
      items := oldMinPriority + low;
    }
  }

  /** The loop of `_pop_prioritized_low`, on a heap that holds `entries`. */
  method PopWhileLow<T>(heap: seq<Entry<T>>, threshold: real, ghost entries: seq<Entry<T>>, ghost bound: nat)
    returns (newReady: seq<T>, rest: seq<Entry<T>>)
    requires Ordered(heap) && multiset(heap) == multiset(entries) && IdsIncrease(entries, bound)
    ensures newReady == Items(StableSort(Due(Untagged(entries), threshold)))
    ensures Ordered(rest) && multiset(rest) == multiset(Later(entries, threshold))
    ensures IdsIncrease(Later(entries, threshold), bound)
    ensures Untagged(Later(entries, threshold)) == Later(Untagged(entries), threshold)
  {
    newReady, rest := [], heap;
    ghost var popped: seq<Entry<T>> := [];
    while rest != []
      invariant Ordered(rest) && Popping(popped, rest, entries, bound, threshold)
      invariant newReady == Items(Untagged(popped))
      decreases |rest|
    {
      if rest[0].when > threshold {
        break;
      }
      ghost var before := rest;
      var root, left := Pop(rest);
      PoppedNext(popped, before, root, left, entries, bound, threshold);
      newReady, rest, popped := newReady + [root.item.1], left, popped + [root];
    }
    RestIsLater(rest, threshold);
    PoppedAreDue(entries, bound, popped, rest, threshold);
  }

  lemma RestIsLater<T>(heap: seq<Entry<T>>, threshold: real)
    requires Ordered(heap) && (heap != [] ==> heap[0].when > threshold)
    ensures forall e <- heap :: e.when > threshold
  {
    forall e <- heap ensures e.when > threshold {
      var i :| 0 <= i < |heap| && heap[i] == e;
      RootIsLeast(heap, i);
    }
  }

  /** What has been popped is due, strictly sorted, and comes before what is left. */
  ghost predicate Popping<T>(popped: seq<Entry<T>>, rest: seq<Entry<T>>, entries: seq<Entry<T>>, bound: nat, t: real)
  {
    && IdsIncrease(entries, bound)
    && multiset(popped) + multiset(rest) == multiset(entries)
    && StrictlySorted(popped)
    && (forall p <- popped :: p.when <= t)
    && (forall p <- popped, e <- rest :: Less(p, e))
  }

  /** The root goes behind everything popped before it and before everything that is left. */
  lemma PoppedNext<T>(popped: seq<Entry<T>>, before: seq<Entry<T>>, root: Entry<T>, rest: seq<Entry<T>>,
                      entries: seq<Entry<T>>, bound: nat, t: real)
    requires Popping(popped, before, entries, bound, t) && root.when <= t
    requires multiset(before) == multiset(rest) + multiset{root} && (forall e <- before :: !Less(e, root))
    ensures Popping(popped + [root], rest, entries, bound, t)
    ensures Items(Untagged(popped + [root])) == Items(Untagged(popped)) + [root.item.1]
  {
    assert root in multiset(before) && root in before;
    forall p <- popped + [root], e <- rest ensures Less(p, e) {
      assert e in multiset(rest) && e in multiset(before) && e in before;
      if p == root { DistinctIds(entries, bound, popped, rest, root, e); }
    }
  }

  lemma DistinctIds<T>(entries: seq<Entry<T>>, bound: nat, popped: seq<Entry<T>>, rest: seq<Entry<T>>,
                       x: Entry<T>, y: Entry<T>)
    requires IdsIncrease(entries, bound) && y in rest
    requires multiset(popped) + (multiset(rest) + multiset{x}) == multiset(entries)
    ensures x.item.0 != y.item.0
  {
    assert y in multiset(rest);
    assert multiset(entries)[x] >= 1 && multiset(entries)[y] >= 1;
    assert x in entries && y in entries;
    var i :| 0 <= i < |entries| && entries[i] == x;
    var j :| 0 <= j < |entries| && entries[j] == y;
    if x == y {
      assert multiset(entries)[x] >= 2;
      OnlyOnce(entries, bound, i);
    }
  }

  lemma OnlyOnce<T>(entries: seq<Entry<T>>, bound: nat, i: nat)
    requires IdsIncrease(entries, bound) && i < |entries|
    ensures multiset(entries)[entries[i]] == 1
  {
    assert entries == entries[..i] + [entries[i]] + entries[i + 1..];
    assert entries[i] !in entries[..i] && entries[i] !in entries[i + 1..];
  }

  /** What was popped is what was due, stably sorted; what is left is the rest. */
  lemma PoppedAreDue<T>(entries: seq<Entry<T>>, bound: nat, popped: seq<Entry<T>>, rest: seq<Entry<T>>, t: real)
    requires Popping(popped, rest, entries, bound, t) && (forall e <- rest :: e.when > t)
    ensures multiset(rest) == multiset(Later(entries, t)) && IdsIncrease(Later(entries, t), bound)
    ensures Untagged(Later(entries, t)) == Later(Untagged(entries), t)
    ensures Untagged(popped) == StableSort(Due(Untagged(entries), t))
  {
    DueKeepsIds(entries, t, bound);
    PoppedMultiset(entries, popped, rest, t);
    StableSortStrict(Due(entries, t), bound);
    StrictlySortedUnique(popped, StableSort(Due(entries, t)));
    UntaggedSplit(entries, t);
  }

  lemma PoppedMultiset<T>(entries: seq<Entry<T>>, popped: seq<Entry<T>>, rest: seq<Entry<T>>, t: real)
    requires multiset(popped) + multiset(rest) == multiset(entries)
    requires (forall p <- popped :: p.when <= t) && (forall e <- rest :: e.when > t)
    ensures multiset(popped) == multiset(Due(entries, t)) && multiset(rest) == multiset(Later(entries, t))
  {
    SplitPermuted(popped + rest, entries, t);
    SplitOfBoth(popped, rest, t);
  }

  lemma SplitOfBoth<T>(low: seq<Entry<T>>, high: seq<Entry<T>>, t: real)
    requires (forall e <- low :: e.when <= t) && (forall e <- high :: e.when > t)
    ensures Due(low + high, t) == low && Later(low + high, t) == high
  {
    SplitConcat(low, high, t);
    SplitUniform(low, t);
    SplitUniform(high, t);
  }

  lemma UntaggedSplit<T>(entries: seq<Entry<T>>, t: real)
    ensures Untagged(Later(entries, t)) == Later(Untagged(entries), t)
    ensures Untagged(StableSort(Due(entries, t))) == StableSort(Due(Untagged(entries), t))
  {
    var f := UntaggedIsMap(entries);
    DueMap(f, entries, t);
    StableSortMap(f, Due(entries, t));
  }

  // ---------- What the raw heap tells ----------

  /** What `next_event` answers: the first timer of the heap's list that is not cancelled. */
  ghost function FirstLive<T>(heap: seq<Entry<T>>, cancelled: set<T>): Option<real> {
    if heap == [] then None
    else if heap[0].item.1 !in cancelled then Some(heap[0].when)
    else FirstLive(heap[1..], cancelled)
  }

  lemma {:induction false} FirstLiveIsLive<T>(heap: seq<Entry<T>>, cancelled: set<T>)
    ensures FirstLive(heap, cancelled) == None <==> forall e <- heap :: e.item.1 in cancelled
    ensures FirstLive(heap, cancelled).Some? ==>
      exists e <- heap :: e.item.1 !in cancelled && e.when == FirstLive(heap, cancelled).value
  {
    if heap != [] {
      FirstLiveIsLive(heap[1..], cancelled);
      assert heap == [heap[0]] + heap[1..];
      assert heap[0] in heap && forall e <- heap[1..] :: e in heap;
    }
  }

  lemma {:induction false} FirstLiveIndex<T>(heap: seq<Entry<T>>, cancelled: set<T>) returns (i: nat)
    requires FirstLive(heap, cancelled).Some?
    ensures i < |heap| && heap[i].item.1 !in cancelled && FirstLive(heap, cancelled) == Some(heap[i].when)
    ensures forall j | 0 <= j < i :: heap[j].item.1 in cancelled
  {
    if heap[0].item.1 !in cancelled {
      i := 0;
    } else {
      var k := FirstLiveIndex(heap[1..], cancelled);
      i := k + 1;
      forall j | 0 <= j < i ensures heap[j].item.1 in cancelled {
        if j > 0 { assert heap[j] == heap[1..][j - 1]; }
      }
    }
  }

  /** All the entries above `i` in the heap are cancelled. */
  ghost predicate Uncovered<T>(heap: seq<Entry<T>>, cancelled: set<T>, i: nat)
    requires i < |heap|
  {
    i == 0 || (heap[Parent(i)].item.1 in cancelled && Uncovered(heap, cancelled, Parent(i)))
  }

  /** A live entry that would be the root if the cancelled ones above it were not there. */
  ghost predicate Exposed<T>(heap: seq<Entry<T>>, cancelled: set<T>, i: nat) {
    i < |heap| && heap[i].item.1 !in cancelled && Uncovered(heap, cancelled, i)
  }

  /** Of the exposed entries the first in the list is also the earliest. */
  ghost predicate FirstExposedIsEarliest<T>(heap: seq<Entry<T>>, cancelled: set<T>) {
    exists i: nat :: Exposed(heap, cancelled, i)
      && forall j: nat | Exposed(heap, cancelled, j) :: i <= j && heap[i].when <= heap[j].when
  }

  lemma {:induction false} UncoveredBelow<T>(heap: seq<Entry<T>>, cancelled: set<T>, bound: nat, i: nat)
    requires i < |heap| && i <= bound && forall j | 0 <= j < bound && j < |heap| :: heap[j].item.1 in cancelled
    ensures Uncovered(heap, cancelled, i)
  {
    if i > 0 { UncoveredBelow(heap, cancelled, bound, Parent(i)); }
  }

  /** Above every entry, or at it, there is an exposed one that is no later; or all are cancelled. */
  lemma {:induction false} ExposedAbove<T>(heap: seq<Entry<T>>, cancelled: set<T>, j: nat) returns (k: Option<nat>)
    requires Ordered(heap) && j < |heap|
    ensures k.Some? ==> Exposed(heap, cancelled, k.value) && heap[k.value].when <= heap[j].when
    ensures k == None ==> heap[j].item.1 in cancelled && Uncovered(heap, cancelled, j)
  {
    k := None;
    if j > 0 {
      k := ExposedAbove(heap, cancelled, Parent(j));
      assert !Less(heap[j], heap[Parent(j)]);
    }
    if k == None && heap[j].item.1 !in cancelled {
      k := Some(j);
    }
  }

  ghost predicate LeastOfLive<T>(heap: seq<Entry<T>>, cancelled: set<T>, when: real) {
    forall e <- heap | e.item.1 !in cancelled :: when <= e.when
  }

  lemma EarliestExposedIsLeast<T>(heap: seq<Entry<T>>, cancelled: set<T>, i: nat)
    requires Ordered(heap) && Exposed(heap, cancelled, i)
    requires forall j: nat | Exposed(heap, cancelled, j) :: heap[i].when <= heap[j].when
    ensures LeastOfLive(heap, cancelled, heap[i].when)
  {
    forall e | e in heap && e.item.1 !in cancelled ensures heap[i].when <= e.when {
      var j :| 0 <= j < |heap| && heap[j] == e;
      var k := ExposedAbove(heap, cancelled, j);
    }
  }

  /**
   Exactly when `next_event` answers the least time of all live timers: when the exposed entry that
   comes first in the raw list is the earliest exposed one.
   */
  lemma NextEventIsLeastExactly<T>(heap: seq<Entry<T>>, cancelled: set<T>)
    requires Ordered(heap) && FirstLive(heap, cancelled).Some?
    ensures LeastOfLive(heap, cancelled, FirstLive(heap, cancelled).value) <==> FirstExposedIsEarliest(heap, cancelled)
  {
    var i := FirstLiveIndex(heap, cancelled);
    UncoveredBelow(heap, cancelled, i, i);
    assert Exposed(heap, cancelled, i);
    if LeastOfLive(heap, cancelled, heap[i].when) {
      forall j: nat | Exposed(heap, cancelled, j) ensures i <= j && heap[i].when <= heap[j].when {
        assert heap[j] in heap;
      }
    }
    if FirstExposedIsEarliest(heap, cancelled) {
      EarliestExposedIsLeast(heap, cancelled, i);
    }
  }

  lemma {:induction false} RootCovers<T>(heap: seq<Entry<T>>, cancelled: set<T>, j: nat)
    requires 0 < j < |heap| && Uncovered(heap, cancelled, j)
    ensures heap[0].item.1 in cancelled
  {
    if Parent(j) > 0 { RootCovers(heap, cancelled, Parent(j)); }
  }

  /** In particular with a live root, which covers all others. */
  lemma LiveRootIsNext<T>(heap: seq<Entry<T>>, cancelled: set<T>)
    requires Ordered(heap) && heap != [] && heap[0].item.1 !in cancelled
    ensures FirstLive(heap, cancelled) == Some(heap[0].when) && FirstExposedIsEarliest(heap, cancelled)
    ensures forall e <- heap :: heap[0].when <= e.when
  {
    assert Exposed(heap, cancelled, 0);
    forall j: nat | Exposed(heap, cancelled, j) ensures j == 0 {
      if j > 0 { RootCovers(heap, cancelled, j); }
    }
    forall e <- heap ensures heap[0].when <= e.when {
      var i :| 0 <= i < |heap| && heap[i] == e;
      RootIsLeast(heap, i);
    }
  }

  lemma UntaggedIn<T>(es: seq<Entry<T>>, tm: Timer<T>)
    ensures tm in Untagged(es) <==> exists e <- es :: Timer(e.when, e.item.1) == tm
  {
    if tm in Untagged(es) {
      var i :| 0 <= i < |es| && Untagged(es)[i] == tm;
      assert es[i] in es;
    }
    if e :| e in es && Timer(e.when, e.item.1) == tm {
      var i :| 0 <= i < |es| && es[i] == e;
      assert Untagged(es)[i] == tm;
    }
  }

  /** Two lists of the same entries hold the same timers. */
  lemma SameTimers<T>(a: seq<Entry<T>>, b: seq<Entry<T>>, tm: Timer<T>)
    requires multiset(a) == multiset(b)
    ensures tm in Untagged(a) <==> tm in Untagged(b)
  {
    UntaggedIn(a, tm);
    UntaggedIn(b, tm);
    forall e ensures e in a <==> e in b {
      assert e in multiset(a) <==> e in multiset(b);
    }
  }

  lemma SameItems<T>(a: seq<Entry<T>>, b: seq<Entry<T>>, item: T)
    requires multiset(a) == multiset(b)
    ensures item in Items(Untagged(a)) ==> item in Items(Untagged(b))
  {
    if item in Items(Untagged(a)) {
      var i :| 0 <= i < |a| && Items(Untagged(a))[i] == item;
      SameTimers(a, b, Untagged(a)[i]);
      var j :| 0 <= j < |b| && Untagged(b)[j] == Untagged(a)[i];
      assert Items(Untagged(b))[j] == item;
    }
  }

  // ---------- Counting live items ----------

  lemma {:induction false} LiveConcat<T>(a: seq<T>, b: seq<T>, cancelled: set<T>)
    ensures LiveOf(a + b, cancelled) == LiveOf(a, cancelled) + LiveOf(b, cancelled)
  {
    if b == [] {
      assert a + b == a;
    } else {
      assert (a + b)[..|a + b| - 1] == a + b[..|b| - 1];
      LiveConcat(a, b[..|b| - 1], cancelled);
    }
  }

  lemma LiveNumWithout<T>(es: seq<Entry<T>>, j: nat, cancelled: set<T>)
    requires j < |es|
    ensures |LiveOf(Items(Untagged(es)), cancelled)|
         == |LiveOf(Items(Untagged(Without(es, j))), cancelled)| + if es[j].item.1 in cancelled then 0 else 1
  {
    var items := Items(Untagged(es));
    var a, x, b := items[..j], [items[j]], items[j + 1..];
    assert items == a + x + b;
    assert Items(Untagged(Without(es, j))) == a + b;
    LiveConcat(a + x, b, cancelled);
    LiveConcat(a, x, cancelled);
    LiveConcat(a, b, cancelled);
    assert x[..0] == [];
  }

  /** The number of live items does not depend on how the heap arranges them. */
  lemma {:induction false} LiveNumPermuted<T>(a: seq<Entry<T>>, b: seq<Entry<T>>, cancelled: set<T>)
    requires multiset(a) == multiset(b)
    ensures |LiveOf(Items(Untagged(a)), cancelled)| == |LiveOf(Items(Untagged(b)), cancelled)|
    decreases |a|
  {
    if a == [] {
      assert |multiset(b)| == 0;
    } else {
      assert a[0] in multiset(b);
      var j :| 0 <= j < |b| && b[j] == a[0];
      WithoutOne(a, 0);
      WithoutOne(b, j);
      LiveNumPermuted(Without(a, 0), Without(b, j), cancelled);
      LiveNumWithout(a, 0, cancelled);
      LiveNumWithout(b, j, cancelled);
    }
  }

  // ---------- The scheduler ----------

  ghost function CancelledOf(hs: seq<Handle>): set<Handle>
    reads hs
  {
    set h | h in hs && h.cancelled
  }

  /** Each of the two sums of `items_num` */
  method CountLive(hs: seq<Handle>, ghost cancelled: set<Handle>) returns (n: nat)
    requires forall h <- hs :: h.cancelled <==> h in cancelled
    ensures n == |LiveOf(hs, cancelled)|
  {
    n := 0;
    for k := 0 to |hs|
      invariant n == |LiveOf(hs[..k], cancelled)|
    {
      assert hs[..k + 1][..k] == hs[..k];
      if !hs[k].cancelled {
        n := n + 1;
      }
    }
    assert hs[..|hs|] == hs;
  }

  /** Handles without a time are ready; the others are filed under their time. */
  class Scheduler {
    const queue: PriorityQueue<Handle>

    ghost predicate Valid()
      reads this, queue
    {
      && queue.Valid()
      && (forall h <- queue.minPriority :: h.when == None)
      && (forall tm <- queue.Timed() :: tm.item.when == Some(tm.when))
    }

    /** Every handle in it, those without a time first. */
    ghost function Handles(): seq<Handle>
      reads this, queue
    {
      queue.minPriority + Items(queue.Timed())
    }

    constructor (queue: PriorityQueue<Handle>)
      requires queue.Valid()
      requires forall h <- queue.minPriority :: h.when == None
      requires forall tm <- queue.Timed() :: tm.item.when == Some(tm.when)
      ensures Valid() && this.queue == queue
    {
      this.queue := queue;
    }

    /** `__init__`; None stands for the ValueError about a handle in the wrong list. */
    static method Create(pending: seq<Handle>, enqueued: seq<Handle>) returns (r: Option<Scheduler>)
      ensures r.Some? <==> (forall h <- pending :: h.when == None) && (forall h <- enqueued :: h.when.Some?)
      ensures r.Some? ==> fresh(r.value) && fresh(r.value.queue)
      ensures r.Some? ==> r.value.Valid() && r.value.Handles() == pending + enqueued
    {
      for k := 0 to |pending|
        invariant forall i | 0 <= i < k :: pending[i].when == None
      {
        if pending[k].when.Some? {
          assert pending[k] in pending;
          return None;
        }
      }
      var timers: seq<Timer<Handle>> := [];
      for k := 0 to |enqueued|
        invariant |timers| == k && Items(timers) == enqueued[..k]
        invariant forall i | 0 <= i < k :: enqueued[i].when == Some(timers[i].when)
      {
        if enqueued[k].when == None {
          assert enqueued[k] in enqueued;
          return None;
        }
        timers := timers + [Timer(enqueued[k].when.value, enqueued[k])];
      }
      assert forall i | 0 <= i < |timers| :: timers[i].item == Items(timers)[i];
      var queue := new PriorityQueue<Handle>(pending, timers);
      var scheduler := new Scheduler(queue);
      r := Some(scheduler);
    }

    method Enqueue(handle: Handle)
      requires Valid()
      modifies queue
      ensures Valid() && queue.ids == old(queue.ids) + if handle.when.Some? then 1 else 0
      ensures handle.when == None ==>
        queue.minPriority == old(queue.minPriority) + [handle] && queue.Timed() == old(queue.Timed())
      ensures handle.when.Some? ==>
        && queue.minPriority == old(queue.minPriority)
        && queue.Timed() == old(queue.Timed()) + [Timer(handle.when.value, handle)]
      ensures var tm := Timer(if handle.when.Some? then handle.when.value else 0.0, (old(queue.ids), handle));
        handle.when.Some? && Behind(old(queue.prioritized), tm) ==> queue.prioritized == old(queue.prioritized) + [tm]
    {
      queue.Enqueue(handle, handle.when);
    }

    /** `pop_pending`: what is ready, then what is due by time and age, without what is cancelled. */
    method PopPending(threshold: real) returns (handles: seq<Handle>, ghost popped: seq<Handle>)
      requires Valid()
      modifies queue
      ensures Valid()
      ensures popped == old(queue.minPriority) + Items(StableSort(Due(old(queue.Timed()), threshold)))
      ensures handles == LiveOf(popped, CancelledOf(popped))
      ensures queue.minPriority == [] && queue.Timed() == Later(old(queue.Timed()), threshold)
    {
      SplitIsSubset(queue.Timed(), threshold);
      var items := queue.PopBelowPriority(threshold);
      popped := items;
      handles := [];
      for k := 0 to |items|
        invariant handles == LiveOf(items[..k], CancelledOf(items))
      {
        assert items[..k + 1][..k] == items[..k];
        if !items[k].cancelled {
          handles := handles + [items[k]];
        }
      }
      assert items[..|items|] == items;
    }

    /** `items_num` */
    method ItemsNum() returns (n: nat)
      requires Valid()
      ensures n == |LiveOf(Handles(), CancelledOf(Handles()))|
    {
      ghost var cancelled := CancelledOf(Handles());
      HeapHandles();
      var ready := CountLive(queue.minPriority, cancelled);
      var timed := CountLive(Items(Untagged(queue.prioritized)), cancelled);
      n := ready + timed;
      LiveNumPermuted(queue.prioritized, queue.entries, cancelled);
      LiveConcat(queue.minPriority, Items(queue.Timed()), cancelled);
    }

    lemma HeapHandles()
      requires Valid()
      ensures forall h <- Items(Untagged(queue.prioritized)) :: h in Handles()
    {
      forall h | h in Items(Untagged(queue.prioritized)) ensures h in Handles() {
        SameItems(queue.prioritized, queue.entries, h);
      }
    }

    lemma HeapItemIsHandle(k: nat)
      requires Valid() && k < |queue.prioritized|
      ensures var e := queue.prioritized[k]; Timer(e.when, e.item.1) in queue.Timed() && e.item.1 in Handles()
    {
      var e := queue.prioritized[k];
      var tm := Timer(e.when, e.item.1);
      UntaggedIn(queue.prioritized, tm);
      SameTimers(queue.prioritized, queue.entries, tm);
      var i :| 0 <= i < |queue.Timed()| && queue.Timed()[i] == tm;
      assert Items(queue.Timed())[i] == tm.item;
    }

    /** `next_event` */
    method NextEvent() returns (next: Option<real>)
      requires Valid()
      ensures next == FirstLive(queue.prioritized, CancelledOf(Handles()))
      ensures next == None <==> forall tm <- queue.Timed() :: tm.item.cancelled
      ensures next.Some? ==> exists tm <- queue.Timed() :: !tm.item.cancelled && tm.when == next.value
      ensures queue.prioritized != [] && !queue.prioritized[0].item.1.cancelled ==>
        next.Some? && forall tm <- queue.Timed() :: next.value <= tm.when
      ensures next.Some? ==>
        ((forall tm <- queue.Timed() | !tm.item.cancelled :: next.value <= tm.when)
         <==> FirstExposedIsEarliest(queue.prioritized, CancelledOf(Handles())))
    {
      ghost var heap, cancelled := queue.prioritized, CancelledOf(Handles());
      next := None;
      for k := 0 to |queue.prioritized|
        invariant FirstLive(heap, cancelled) == FirstLive(heap[k..], cancelled)
        invariant next == None
      {
        HeapItemIsHandle(k);
        assert heap[k..][1..] == heap[k + 1..];
        if !queue.prioritized[k].item.1.cancelled {
          next := queue.prioritized[k].item.1.when;
          break;
        }
      }
      NextEventOfTimers(cancelled);
    }

    lemma NextEventOfTimers(cancelled: set<Handle>)
      requires Valid() && cancelled == CancelledOf(Handles())
      ensures var next := FirstLive(queue.prioritized, cancelled);
        && (next == None <==> forall tm <- queue.Timed() :: tm.item.cancelled)
        && (next.Some? ==> exists tm <- queue.Timed() :: !tm.item.cancelled && tm.when == next.value)
        && (queue.prioritized != [] && !queue.prioritized[0].item.1.cancelled ==>
              next.Some? && forall tm <- queue.Timed() :: next.value <= tm.when)
        && (next.Some? ==>
              ((forall tm <- queue.Timed() | !tm.item.cancelled :: next.value <= tm.when)
               <==> FirstExposedIsEarliest(queue.prioritized, cancelled)))
    {
      var heap := queue.prioritized;
      FirstLiveIsLive(heap, cancelled);
      forall e | e in heap ensures Timer(e.when, e.item.1) in queue.Timed() && e.item.1 in Handles() {
        var k :| 0 <= k < |heap| && heap[k] == e;
        HeapItemIsHandle(k);
      }
      forall tm | tm in queue.Timed() ensures exists e <- heap :: Timer(e.when, e.item.1) == tm {
        SameTimers(heap, queue.entries, tm);
        UntaggedIn(heap, tm);
      }
      if heap != [] && !heap[0].item.1.cancelled {
        assert heap[0] in heap;
        LiveRootIsNext(heap, cancelled);
      }
      if FirstLive(heap, cancelled).Some? {
        NextEventIsLeastExactly(heap, cancelled);
      }
    }

    /** `get_items` */
    method GetItems() returns (items: seq<Handle>)
      requires Valid()
      ensures items == queue.minPriority + Items(Untagged(queue.prioritized))
      ensures forall h :: h in items <==> h in Handles()
    {
      items := queue.minPriority;
      for k := 0 to |queue.prioritized|
        invariant items == queue.minPriority + Items(Untagged(queue.prioritized))[..k]
      {
        items := items + [queue.prioritized[k].item.1];
      }
      forall h: Handle | h in items || h in Handles() ensures h in items && h in Handles() {
        SameItems(queue.prioritized, queue.entries, h);
        SameItems(queue.entries, queue.prioritized, h);
      }
    }
  }

  lemma SecondIsFirstLive<T>(heap: seq<Entry<T>>, cancelled: set<T>)
    requires |heap| > 1 && heap[0].item.1 in cancelled && heap[1].item.1 !in cancelled
    ensures FirstLive(heap, cancelled) == Some(heap[1].when)
  {
    assert heap[1..][0] == heap[1];
  }

  /**
   With a cancelled root the answer need not be the least: three timers are enqueued and the first
   is cancelled; a live one is due at 2, and the answer is 5.
   */
  method NextEventCanOvershoot() returns (scheduler: Scheduler, next: Option<real>)
    ensures fresh(scheduler) && scheduler.Valid()
    ensures next == Some(5.0)
    ensures exists tm <- scheduler.queue.Timed() :: !tm.item.cancelled && tm.when == 2.0
  {
    var first := new Handle(0, Some(1.0));
    var second := new Handle(1, Some(5.0));
    var third := new Handle(2, Some(2.0));
    scheduler := ThreeTimers(first, second, third);
    first.Cancel();
    FirstIsCancelled(scheduler, first, second);
    next := scheduler.NextEvent();
    assert scheduler.queue.Timed()[2] in scheduler.queue.Timed();
  }

  lemma FirstIsCancelled(scheduler: Scheduler, first: Handle, second: Handle)
    requires scheduler.Valid() && |scheduler.queue.prioritized| > 1 && first.cancelled && !second.cancelled
    requires scheduler.queue.prioritized[0].item.1 == first
    requires scheduler.queue.prioritized[1] == Timer(5.0, (1, second))
    ensures FirstLive(scheduler.queue.prioritized, CancelledOf(scheduler.Handles())) == Some(5.0)
  {
    scheduler.HeapItemIsHandle(0);
    scheduler.HeapItemIsHandle(1);
    SecondIsFirstLive(scheduler.queue.prioritized, CancelledOf(scheduler.Handles()));
  }

  /** Enqueues the next timer of a heap that lists its entries in the order of their ids. */
  method EnqueueBehind(scheduler: Scheduler, handle: Handle, when: real)
    requires scheduler.Valid() && handle.when == Some(when)
    requires Behind(scheduler.queue.prioritized, Timer(when, (scheduler.queue.ids, handle)))
    modifies scheduler.queue
    ensures scheduler.Valid() && scheduler.queue.ids == old(scheduler.queue.ids) + 1
    ensures scheduler.queue.prioritized ==
            old(scheduler.queue.prioritized) + [Timer(when, (old(scheduler.queue.ids), handle))]
    ensures scheduler.queue.Timed() == old(scheduler.queue.Timed()) + [Timer(when, handle)]
  {
    scheduler.Enqueue(handle);
  }

  method TwoTimers(first: Handle, second: Handle) returns (scheduler: Scheduler)
    requires first.when == Some(1.0) && second.when == Some(5.0)
    ensures fresh(scheduler) && fresh(scheduler.queue) && scheduler.Valid() && scheduler.queue.ids == 2
    ensures scheduler.queue.prioritized == [Timer(1.0, (0, first)), Timer(5.0, (1, second))]
    ensures scheduler.queue.Timed() == [Timer(1.0, first), Timer(5.0, second)]
  {
    var queue := new PriorityQueue<Handle>([], []);
    scheduler := new Scheduler(queue);
    EnqueueBehind(scheduler, first, 1.0);
    EnqueueBehind(scheduler, second, 5.0);
  }

  method ThreeTimers(first: Handle, second: Handle, third: Handle) returns (scheduler: Scheduler)
    requires first.when == Some(1.0) && second.when == Some(5.0) && third.when == Some(2.0)
    ensures fresh(scheduler) && fresh(scheduler.queue) && scheduler.Valid()
    ensures scheduler.queue.prioritized == [Timer(1.0, (0, first)), Timer(5.0, (1, second)), Timer(2.0, (2, third))]
    ensures scheduler.queue.Timed() == [Timer(1.0, first), Timer(5.0, second), Timer(2.0, third)]
  {
    scheduler := TwoTimers(first, second);
    EnqueueBehind(scheduler, third, 2.0);
  }
}
