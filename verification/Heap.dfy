/**
 The binary heap that aio/loop/pure/scheduler.py keeps its timers in: a list that `heappush` and
 `heappop` of Python's heapq rearrange in place, ordered by time and then by tie-breaking id.
 */
module Heap {
  import opened StableQueue

  /** The tuple (priority, id, item) of `_wrap_item`. */
  type Entry<T> = Timer<(nat, T)>

  predicate Less<T>(a: Entry<T>, b: Entry<T>) {
    a.when < b.when || (a.when == b.when && a.item.0 < b.item.0)
  }

  function Parent(i: nat): nat
    requires i > 0
  {
    (i - 1) / 2
  }

  /** No entry at a child of `lo`, or of anything behind it, comes before its parent. */
  ghost predicate OrderedFrom<T>(h: seq<Entry<T>>, lo: nat) {
    forall i | 0 < i < |h| && lo <= Parent(i) :: !Less(h[i], h[Parent(i)])
  }

  ghost predicate Ordered<T>(h: seq<Entry<T>>) {
    OrderedFrom(h, 0)
  }

  /** `pos` lies in the subtree of `lo`. */
  ghost predicate Under(lo: nat, pos: nat) {
    pos == lo || (pos > lo && Under(lo, Parent(pos)))
  }

  lemma {:induction false} RootIsLeast<T>(h: seq<Entry<T>>, i: nat)
    requires Ordered(h) && i < |h|
    ensures !Less(h[i], h[0])
  {
    if i > 0 { RootIsLeast(h, Parent(i)); }
  }

  /**
   Ordered from `lo` on, except that the entry at `pos` may come before its parent. Its children
   do not come before that parent either.
   */
  ghost predicate OrderedBut<T>(h: seq<Entry<T>>, lo: nat, pos: nat) {
    && (forall i | 0 < i < |h| && lo <= Parent(i) && i != pos :: !Less(h[i], h[Parent(i)]))
    && (lo < pos < |h| ==> forall i | 0 < i < |h| && Parent(i) == pos :: !Less(h[i], h[Parent(pos)]))
  }

  function Swapped<T>(h: seq<T>, i: nat, j: nat): seq<T>
    requires i < |h| && j < |h|
  {
    h[i := h[j]][j := h[i]]
  }

  lemma SwappedUp<T>(h: seq<Entry<T>>, lo: nat, pos: nat)
    requires lo < pos < |h| && Under(lo, pos) && OrderedBut(h, lo, pos) && Less(h[pos], h[Parent(pos)])
    ensures Under(lo, Parent(pos)) && lo <= Parent(pos) < pos
    ensures OrderedBut(Swapped(h, pos, Parent(pos)), lo, Parent(pos))
    ensures multiset(Swapped(h, pos, Parent(pos))) == multiset(h)
  {
    var up := Parent(pos);
    var r := Swapped(h, pos, up);
    UnderAtLeast(lo, up);
    forall i | 0 < i < |r| && lo <= Parent(i) && i != up ensures !Less(r[i], r[Parent(i)]) {
      if i != pos { assert !Less(h[i], h[Parent(i)]); }
    }
    if lo < up {
      UnderAtLeast(lo, Parent(up));
      assert !Less(h[up], h[Parent(up)]);
      forall i | 0 < i < |r| && Parent(i) == up ensures !Less(r[i], r[Parent(up)]) {
        if i != pos { assert !Less(h[i], h[up]); }
      }
    }
  }

  lemma {:induction false} UnderAtLeast(lo: nat, pos: nat)
    requires Under(lo, pos)
    ensures lo <= pos
  {
  }

  /** An entry that belongs further up changes places with its parent. */
  lemma RaisedOnce<T>(r: seq<Entry<T>>, lo: nat, p: nat, newItem: Entry<T>)
    requires lo < p < |r| && Under(lo, p) && OrderedBut(r[p := newItem], lo, p) && Less(newItem, r[Parent(p)])
    ensures lo <= Parent(p) < p && Under(lo, Parent(p))
    ensures var r' := r[p := r[Parent(p)]];
      && OrderedBut(r'[Parent(p) := newItem], lo, Parent(p))
      && multiset(r'[Parent(p) := newItem]) == multiset(r[p := newItem])
  {
    SwappedUp(r[p := newItem], lo, p);
    assert r[p := r[Parent(p)]][Parent(p) := newItem] == Swapped(r[p := newItem], p, Parent(p));
  }

  /** `heapq._siftdown`: moves the entry at `pos` towards `lo` until its parent comes before it. */
  method SiftDown<T>(h: seq<Entry<T>>, lo: nat, pos: nat) returns (r: seq<Entry<T>>)
    requires pos < |h| && Under(lo, pos) && OrderedBut(h, lo, pos)
    ensures OrderedFrom(r, lo) && multiset(r) == multiset(h) && |r| == |h|
    ensures pos == lo || (pos > 0 && !Less(h[pos], h[Parent(pos)])) ==> r == h
  {
    r := h;
    var p := pos;
    var newItem := r[p];
    assert r[p := newItem] == h;
    while p > lo
      invariant p <= pos && p < |r| == |h| && Under(lo, p)
      invariant OrderedBut(r[p := newItem], lo, p) && multiset(r[p := newItem]) == multiset(h)
      invariant p == pos ==> r == h
      invariant p < pos ==> pos > lo && Less(newItem, h[Parent(pos)])
      decreases p
    {
      var parentPos := Parent(p);
      if !Less(newItem, r[parentPos]) {
        break;
      }
      RaisedOnce(r, lo, p, newItem);
      r := r[p := r[parentPos]];
      p := parentPos;
    }
    UnderAtLeast(lo, p);
    r := r[p := newItem];
  }

  /** Ordered from `lo` on around the hole at `pos`, whose entry is ignored. */
  ghost predicate OrderedAround<T>(h: seq<Entry<T>>, lo: nat, pos: nat) {
    && (forall i | 0 < i < |h| && lo <= Parent(i) && i != pos && Parent(i) != pos :: !Less(h[i], h[Parent(i)]))
    && (lo < pos < |h| ==> forall i | 0 < i < |h| && Parent(i) == pos :: !Less(h[i], h[Parent(pos)]))
  }

  /** The child that does not come after the other; the left one only if it comes before. */
  function SmallerChild<T>(h: seq<Entry<T>>, pos: nat): (child: nat)
    requires 2 * pos + 1 < |h|
    ensures pos < child < |h| && Parent(child) == pos
    ensures forall i | 0 < i < |h| && Parent(i) == pos :: !Less(h[i], h[child])
  {
    var left := 2 * pos + 1;
    var child := if left + 1 < |h| && !Less(h[left], h[left + 1]) then left + 1 else left;
    assert forall i | 0 < i < |h| && Parent(i) == pos :: i == left || i == left + 1;
    child
  }

  lemma HoleMoved<T>(h: seq<Entry<T>>, lo: nat, pos: nat, child: nat, newItem: Entry<T>)
    requires pos < child < |h| && Parent(child) == pos && Under(lo, pos) && OrderedAround(h, lo, pos)
    requires forall i | 0 < i < |h| && Parent(i) == pos :: !Less(h[i], h[child])
    ensures OrderedAround(h[pos := h[child]], lo, child) && Under(lo, child)
    ensures multiset(h[pos := h[child]][child := newItem]) == multiset(h[pos := newItem])
  {
    UnderAtLeast(lo, pos);
    var r := h[pos := h[child]];
    forall i | 0 < i < |r| && lo <= Parent(i) && i != child && Parent(i) != child
      ensures !Less(r[i], r[Parent(i)])
    {
      if i != pos && Parent(i) != pos { assert !Less(h[i], h[Parent(i)]); }
      if i == pos { assert !Less(h[child], h[Parent(pos)]); }
    }
    forall i | 0 < i < |r| && Parent(i) == child ensures !Less(r[i], r[Parent(child)]) {
      assert !Less(h[i], h[Parent(i)]);
    }
  }

  /** `heapq._siftup`: moves a hole from `lo` down to a leaf, then the entry of `lo` up from there. */
  method SiftUp<T>(h: seq<Entry<T>>, lo: nat) returns (r: seq<Entry<T>>)
    requires lo < |h| && OrderedFrom(h, lo + 1)
    ensures OrderedFrom(r, lo) && multiset(r) == multiset(h) && |r| == |h|
  {
    r := h;
    var pos := lo;
    var newItem := r[pos];
    assert r[pos := newItem] == h;
    var childPos := 2 * pos + 1;
    while childPos < |r|
      invariant lo <= pos < |r| == |h| && childPos == 2 * pos + 1 && Under(lo, pos)
      invariant OrderedAround(r, lo, pos)
      invariant multiset(r[pos := newItem]) == multiset(h)
    {
      childPos := SmallerChild(r, pos);
      HoleMoved(r, lo, pos, childPos, newItem);
      r := r[pos := r[childPos]];
      pos := childPos;
      childPos := 2 * pos + 1;
    }
    LeafFilled(r, lo, pos, newItem);
    r := r[pos := newItem];
    r := SiftDown(r, lo, pos);
  }

  lemma LeafFilled<T>(h: seq<Entry<T>>, lo: nat, pos: nat, newItem: Entry<T>)
    requires pos < |h| <= 2 * pos + 1 && OrderedAround(h, lo, pos)
    ensures OrderedBut(h[pos := newItem], lo, pos)
  {
    assert forall i | 0 < i < |h| :: Parent(i) != pos;
  }

  /** `heapq.heappush` */
  method Push<T>(h: seq<Entry<T>>, e: Entry<T>) returns (r: seq<Entry<T>>)
    requires Ordered(h)
    ensures Ordered(r) && multiset(r) == multiset(h) + multiset{e}
    ensures h == [] || !Less(e, h[Parent(|h|)]) ==> r == h + [e]
  {
    UnderRoot(|h|);
    r := SiftDown(h + [e], 0, |h|);
  }

  /** `heapq.heappop` */
  method Pop<T>(h: seq<Entry<T>>) returns (least: Entry<T>, r: seq<Entry<T>>)
    requires Ordered(h) && h != []
    ensures least == h[0] && (forall e <- h :: !Less(e, least))
    ensures Ordered(r) && multiset(h) == multiset(r) + multiset{least}
  {
    forall e <- h ensures !Less(e, h[0]) {
      var i :| 0 <= i < |h| && h[i] == e;
      RootIsLeast(h, i);
    }
    least := h[0];
    var last := h[|h| - 1];
    r := h[..|h| - 1];
    assert h == r + [last];
    if r != [] {
      r := r[0 := last];
      r := SiftUp(r, 0);
    }
  }

  /** `heapq.heapify` */
  method Heapify<T>(h: seq<Entry<T>>) returns (r: seq<Entry<T>>)
    ensures Ordered(r) && multiset(r) == multiset(h)
  {
    r := h;
    var k: nat := |h| / 2;
    while k > 0
      invariant k <= |h| / 2 && |r| == |h|
      invariant OrderedFrom(r, k) && multiset(r) == multiset(h)
    {
      k := k - 1;
      r := SiftUp(r, k);
    }
  }

  lemma {:induction false} UnderRoot(pos: nat)
    ensures Under(0, pos)
  {
    if pos > 0 { UnderRoot(Parent(pos)); }
  }
}
