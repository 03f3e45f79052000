/** What every run of a channel keeps. */
module ChannelProperties {
  import opened Wrappers
  import opened ChannelMachine

  // ---------- Conservation ----------

  lemma GetConserves<T>(c: Chan<T>)
    ensures var (c1, r) := GetNow(c);
      c.container + AcceptedBy(c, GetNoWait) == (if r.Value? then [r.value] else []) + c1.container
  {
    var (c1, r) := GetNow(c);
    assert c.container != [] ==> c.container == [c.container[0]] + c.container[1..];
  }

  lemma PutConserves<T>(c: Chan<T>, x: T)
    ensures var (c1, r) := PutNow(c, x);
      c.container + (if r == Done then [x] else []) == DeliveredBy(c, PutNoWait(x)) + c1.container
  {
  }

  lemma GetOrWaitIsGet<T>(c: Chan<T>)
    ensures AcceptedBy(c, Get) == AcceptedBy(c, GetNoWait) && DeliveredBy(c, Get) == DeliveredBy(c, GetNoWait)
    ensures Next(c, Get).container == Next(c, GetNoWait).container
  {
  }

  lemma PutOrWaitIsPut<T>(c: Chan<T>, x: T)
    ensures AcceptedBy(c, Put(x)) == AcceptedBy(c, PutNoWait(x))
    ensures DeliveredBy(c, Put(x)) == DeliveredBy(c, PutNoWait(x))
    ensures Next(c, Put(x)).container == Next(c, PutNoWait(x)).container
  {
  }

  lemma OthersConserve<T>(c: Chan<T>, l: Label<T>)
    requires l.Close? || l.CancelWaiter? || l.Resume?
    ensures AcceptedBy(c, l) == [] && DeliveredBy(c, l) == [] && Next(c, l).container == c.container
  {
  }

  /** Holds for every configuration. */
  lemma StepConserves<T>(c: Chan<T>, l: Label<T>)
    ensures c.container + AcceptedBy(c, l) == DeliveredBy(c, l) + Next(c, l).container
  {
    match l
    case GetNoWait => GetConserves(c);
    case Get => GetOrWaitIsGet(c); GetConserves(c);
    case PutNoWait(x) => PutConserves(c, x);
    case Put(x) => PutOrWaitIsPut(c, x); PutConserves(c, x);
    case _ => OthersConserve(c, l);
  }

  lemma Chained<T>(a: seq<T>, i: seq<T>, o: seq<T>, b: seq<T>, i2: seq<T>, o2: seq<T>, z: seq<T>)
    requires a + i == o + b && b + i2 == o2 + z
    ensures a + (i + i2) == (o + o2) + z
  {
    assert a + (i + i2) == (a + i) + i2 == o + (b + i2);
  }

  /**
   Nothing is lost, duplicated or reordered: what was there at first and was then accepted is what was
   delivered, in the same order, followed by what is in the container.
   */
  lemma {:induction false} RunConserves<T>(c: Chan<T>, ls: seq<Label<T>>)
    ensures c.container + AllAccepted(c, ls) == AllDelivered(c, ls) + After(c, ls).container
    decreases |ls|
  {
    if ls != [] {
      var c1, rest := Next(c, ls[0]), ls[1..];
      StepConserves(c, ls[0]);
      RunConserves(c1, rest);
      Chained(c.container, AcceptedBy(c, ls[0]), DeliveredBy(c, ls[0]), c1.container,
              AllAccepted(c1, rest), AllDelivered(c1, rest), After(c1, rest).container);
    }
  }

  // ---------- The queues ----------

  /** In order of arrival. */
  ghost predicate Arrived(ids: seq<nat>, bound: nat) {
    && (forall i, j | 0 <= i < j < |ids| :: ids[i] < ids[j])
    && (forall i | 0 <= i < |ids| :: ids[i] < bound)
  }

  lemma {:induction false} RemoveIdKeepsOrder(ids: seq<nat>, id: nat, bound: nat)
    requires Arrived(ids, bound)
    ensures Arrived(RemoveId(ids, id), bound)
    ensures forall x :: x in RemoveId(ids, id) <==> x in ids && x != id
  {
    if ids != [] {
      var rest := ids[1..];
      assert ids == [ids[0]] + rest;
      RemoveIdKeepsOrder(rest, id, bound);
      var r := RemoveId(rest, id);
      forall i | 0 <= i < |r| ensures ids[0] < r[i] {
        assert r[i] in rest;
      }
    }
  }

  lemma {:induction false} RemoveWriterIds<T>(ws: seq<WriteWaiter<T>>, id: nat)
    ensures WriterIds(RemoveWriter(ws, id)) == RemoveId(WriterIds(ws), id)
  {
    if ws != [] {
      RemoveWriterIds(ws[1..], id);
      assert WriterIds(ws)[1..] == WriterIds(ws[1..]);
      if ws[0].id != id {
        assert WriterIds([ws[0]] + RemoveWriter(ws[1..], id)) == [ws[0].id] + WriterIds(RemoveWriter(ws[1..], id));
      }
    }
  }

  /** An entry that is still queued has not been served, and its coroutine not resumed. */
  ghost predicate Unserved<T>(promises: seq<Promise<T>>, resumed: set<nat>, ids: seq<nat>) {
    forall id <- ids :: id < |promises| && (promises[id].Pending? || promises[id].Failed?) && id !in resumed
  }

  /** A coroutine that is blocked is queued. */
  ghost predicate BlockedAreQueued<T>(promises: seq<Promise<T>>, readers: seq<nat>, writers: seq<nat>) {
    forall id: nat | id < |promises| && promises[id].Pending? :: id in readers || id in writers
  }

  ghost predicate QueuesOk<T>(c: Chan<T>) {
    && Arrived(c.readers, |c.promises|) && Arrived(WriterIds(c.writers), |c.promises|)
    && Unserved(c.promises, c.resumed, c.readers) && Unserved(c.promises, c.resumed, WriterIds(c.writers))
    && BlockedAreQueued(c.promises, c.readers, WriterIds(c.writers))
    && (forall id <- c.resumed :: id < |c.promises|)
  }

  /** Whoever was served came before everyone who still waits; promises fail for two reasons only. */
  ghost predicate ServedInOrder<T>(promises: seq<Promise<T>>, readers: seq<nat>, writers: seq<nat>) {
    && (forall i: nat | i < |promises| && promises[i].Got? :: forall r <- readers :: i < r)
    && (forall i: nat | i < |promises| && promises[i].Accepted? :: forall w <- writers :: i < w)
    && (forall i: nat | i < |promises| && promises[i].Failed? ::
          promises[i].error.Closed? || promises[i].error.Cancelled?)
  }

  ghost predicate NobodyPending<T>(c: Chan<T>) {
    forall i | 0 <= i < |c.promises| :: !c.promises[i].Pending?
  }

  /** No wake-up is lost: readers wait only for an empty channel, and writers only for a full one. */
  ghost predicate Shaped<T>(c: Chan<T>) {
    && (c.maxCapacity.Some? ==> |c.container| <= c.maxCapacity.value)
    && (c.readers != [] ==> c.container == [])
    && (c.writers != [] ==> IsFull(c))
  }

  /** The configurations that the constructor should ask for. */
  predicate WellConfigured<T>(prepopulate: seq<T>, maxCapacity: Option<int>) {
    maxCapacity.Some? ==> 1 <= maxCapacity.value && |prepopulate| <= maxCapacity.value
  }

  ghost predicate Inv<T>(c: Chan<T>) {
    && (c.maxCapacity.Some? ==> 1 <= c.maxCapacity.value)
    && Shaped(c) && QueuesOk(c) && ServedInOrder(c.promises, c.readers, WriterIds(c.writers))
    && (c.closed ==> NobodyPending(c))
  }

  // ---------- Every step keeps the invariant ----------

  lemma ArrivedTail(ids: seq<nat>, bound: nat)
    requires Arrived(ids, bound) && ids != []
    ensures Arrived(ids[1..], bound) && ids[0] < bound
    ensures forall x :: x in ids[1..] <==> x in ids && x != ids[0]
    ensures forall x <- ids[1..] :: ids[0] < x
  {
    assert ids == [ids[0]] + ids[1..];
    forall x | x in ids[1..] ensures ids[0] < x {
      var i :| 0 <= i < |ids| - 1 && ids[1..][i] == x;
      assert ids[i + 1] == x;
    }
  }

  lemma ArrivedNew(ids: seq<nat>, bound: nat)
    requires Arrived(ids, bound)
    ensures Arrived(ids + [bound], bound + 1) && Arrived(ids, bound + 1) && bound !in ids
  {
  }

  lemma StaleWriterKeepsInv<T>(c: Chan<T>)
    requires Inv(c) && c.container != [] && c.writers != [] && !IsPending(c, c.writers[0].id)
    ensures Inv(c.(writers := c.writers[1..]))
  {
    assert WriterIds(c.writers[1..]) == WriterIds(c.writers)[1..];
    ArrivedTail(WriterIds(c.writers), |c.promises|);
    assert WriterIds(c.writers)[0] == c.writers[0].id && c.readers == [];
  }

  lemma TakeAndRefillKeepsInv<T>(c: Chan<T>)
    requires Inv(c) && c.container != [] && c.writers != []
    ensures Inv(TakeAndRefill(c).0)
  {
    if !IsPending(c, c.writers[0].id) {
      StaleWriterKeepsInv(c);
    } else {
      assert WriterIds(c.writers[1..]) == WriterIds(c.writers)[1..];
      ArrivedTail(WriterIds(c.writers), |c.promises|);
      assert WriterIds(c.writers)[0] == c.writers[0].id && c.readers == [];
    }
  }

  lemma GetKeepsInv<T>(c: Chan<T>)
    requires Inv(c)
    ensures Inv(GetNow(c).0) && GetNow(c).1 != Raised(AssertionFailed)
  {
    if c.container != [] && c.writers != [] {
      TakeAndRefillKeepsInv(c);
    } else {
      assert WriterIds(c.writers) == WriterIds(GetNow(c).0.writers);
    }
  }

  lemma HandOverKeepsInv<T>(c: Chan<T>, x: T)
    requires Inv(c) && c.readers != []
    ensures Inv(HandOver(c, x).0)
  {
    ArrivedTail(c.readers, |c.promises|);
    assert c.writers == [];
    assert c.readers[0] in c.readers;
  }

  lemma PutKeepsInv<T>(c: Chan<T>, x: T)
    requires Inv(c)
    ensures Inv(PutNow(c, x).0) && PutNow(c, x).1 != Raised(AssertionFailed)
  {
    if c.readers != [] && !c.closed {
      HandOverKeepsInv(c, x);
    } else {
      assert WriterIds(c.writers) == WriterIds(PutNow(c, x).0.writers);
    }
  }

  lemma ReaderWaitsKeepsInv<T>(c: Chan<T>)
    requires Inv(c) && c.container == [] && !c.closed
    ensures Inv(c.(promises := c.promises + [Pending], readers := c.readers + [|c.promises|]))
  {
    ArrivedNew(c.readers, |c.promises|);
    ArrivedNew(WriterIds(c.writers), |c.promises|);
    assert c.writers == [];
  }

  lemma WriterWaitsKeepsInv<T>(c: Chan<T>, x: T)
    requires Inv(c) && IsFull(c) && !c.closed
    ensures Inv(c.(promises := c.promises + [Pending], writers := c.writers + [WriteWaiter(x, |c.promises|)]))
  {
    ArrivedNew(c.readers, |c.promises|);
    ArrivedNew(WriterIds(c.writers), |c.promises|);
    assert WriterIds(c.writers + [WriteWaiter(x, |c.promises|)]) == WriterIds(c.writers) + [|c.promises|];
    assert c.readers == [];
  }

  lemma CloseKeepsInv<T>(c: Chan<T>)
    requires Inv(c)
    ensures Inv(CloseAll(c))
  {
  }

  lemma CancelKeepsInv<T>(c: Chan<T>, id: nat)
    requires Inv(c) && IsPending(c, id)
    ensures Inv(Finish(c, id, Failed(Cancelled)))
  {
  }

  lemma ResumeKeepsInv<T>(c: Chan<T>, id: nat, thrown: bool)
    requires Inv(c) && Enabled(c, Resume(id, thrown))
    ensures Inv(Next(c, Resume(id, thrown)))
  {
    RemoveIdKeepsOrder(c.readers, id, |c.promises|);
    RemoveIdKeepsOrder(WriterIds(c.writers), id, |c.promises|);
    RemoveWriterIds(c.writers, id);
  }

  lemma StepKeepsInv<T>(c: Chan<T>, l: Label<T>)
    requires Inv(c)
    ensures Inv(Next(c, l)) && Res(c, l) != Raised(AssertionFailed)
  {
    match l
    case GetNoWait => GetKeepsInv(c);
    case Get =>
      GetKeepsInv(c);
      if GetNow(c).1 == Raised(Empty) { ReaderWaitsKeepsInv(c); }
    case PutNoWait(x) => PutKeepsInv(c, x);
    case Put(x) =>
      PutKeepsInv(c, x);
      if PutNow(c, x).1 == Raised(Overflowed) { WriterWaitsKeepsInv(c, x); }
    case Close => CloseKeepsInv(c);
    case CancelWaiter(id) =>
      if IsPending(c, id) { CancelKeepsInv(c, id); }
    case Resume(id, thrown) =>
      if Enabled(c, l) { ResumeKeepsInv(c, id, thrown); }
  }
}
