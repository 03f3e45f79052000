/** Results about whole runs of a channel. */
module ChannelRuns {
  import opened Wrappers
  import opened ChannelMachine
  import opened ChannelProperties

  lemma RunCons<T>(c: Chan<T>, l: Label<T>, ls: seq<Label<T>>)
    ensures After(c, [l] + ls) == After(Next(c, l), ls)
    ensures Results(c, [l] + ls) == [Res(c, l)] + Results(Next(c, l), ls)
    ensures AllAccepted(c, [l] + ls) == AcceptedBy(c, l) + AllAccepted(Next(c, l), ls)
  {
    assert ([l] + ls)[1..] == ls;
  }

  lemma {:induction false} RunKeepsInv<T>(c: Chan<T>, ls: seq<Label<T>>)
    requires Inv(c)
    ensures Inv(After(c, ls)) && Raised(AssertionFailed) !in Results(c, ls)
    decreases |ls|
  {
    if ls != [] {
      StepKeepsInv(c, ls[0]);
      RunKeepsInv(Next(c, ls[0]), ls[1..]);
    }
  }

  /** The states of a channel that was configured well. */
  ghost predicate Reachable<T(!new)>(c: Chan<T>) {
    exists prepopulate: seq<T>, maxCapacity: Option<int>, ls: seq<Label<T>> ::
      WellConfigured(prepopulate, maxCapacity) && After(Init(prepopulate, maxCapacity), ls) == c
  }

  lemma ReachableInv<T(!new)>(c: Chan<T>)
    requires Reachable(c)
    ensures Inv(c)
  {
    var prepopulate: seq<T>, maxCapacity: Option<int>, ls: seq<Label<T>> :|
      WellConfigured(prepopulate, maxCapacity) && After(Init(prepopulate, maxCapacity), ls) == c;
    RunKeepsInv(Init(prepopulate, maxCapacity), ls);
  }

  /** No wake-up is lost: who is blocked has a reason to be, cancelled and stale entries included. */
  lemma BlockedForAReason<T(!new)>(c: Chan<T>, id: nat)
    requires Reachable(c) && IsPending(c, id)
    ensures id in c.readers || id in WriterIds(c.writers)
    ensures id in c.readers ==> c.container == [] && c.writers == []
    ensures id in WriterIds(c.writers) ==> c.maxCapacity == Some(|c.container|) && c.readers == []
    ensures !c.closed
  {
    ReachableInv(c);
  }

  // ---------- When the asserts hold ----------

  ghost predicate AssertsNeverFail<T(!new)>(prepopulate: seq<T>, maxCapacity: Option<int>) {
    forall ls: seq<Label<T>> :: Raised(AssertionFailed) !in Results(Init(prepopulate, maxCapacity), ls)
  }

  /** An overfull channel: a writer blocks, and the next `get` finds more elements than the capacity. */
  lemma OverfullFails<T(!new)>(prepopulate: seq<T>, capacity: int, x: T)
    requires |prepopulate| > capacity && prepopulate != []
    ensures !AssertsNeverFail(prepopulate, Some(capacity))
  {
    var c := Init(prepopulate, Some(capacity));
    var c1 := Next(c, Put(x));
    RunCons(c1, GetNoWait, []);
    RunCons(c, Put(x), [GetNoWait]);
    assert Results(c, [Put(x)] + [GetNoWait])[1] == Raised(AssertionFailed);
  }

  /** A channel without room: a reader blocks, and the next `put` finds both a reader and no room. */
  lemma NoRoomFails<T(!new)>(capacity: int, x: T)
    requires capacity < 1
    ensures !AssertsNeverFail<T>([], Some(capacity))
  {
    var c: Chan<T> := Init([], Some(capacity));
    var c1 := Next(c, Get);
    RunCons(c1, PutNoWait(x), []);
    RunCons(c, Get, [PutNoWait(x)]);
    assert Results(c, [Get] + [PutNoWait(x)])[1] == Raised(AssertionFailed);
  }

  /** The constructor checks neither condition; the asserts hold in every run exactly when both hold. */
  lemma AssertsHoldIffWellConfigured<T(!new)>(prepopulate: seq<T>, maxCapacity: Option<int>, x: T)
    ensures AssertsNeverFail(prepopulate, maxCapacity) <==> WellConfigured(prepopulate, maxCapacity)
  {
    if WellConfigured(prepopulate, maxCapacity) {
      forall ls: seq<Label<T>>
        ensures Raised(AssertionFailed) !in Results(Init(prepopulate, maxCapacity), ls)
      {
        RunKeepsInv(Init(prepopulate, maxCapacity), ls);
      }
    } else if prepopulate != [] && |prepopulate| > maxCapacity.value {
      OverfullFails(prepopulate, maxCapacity.value, x);
    } else {
      NoRoomFails(maxCapacity.value, x);
    }
  }

  // ---------- Stale entries ----------

  ghost predicate HeadIsStale<T>(c: Chan<T>, ids: seq<nat>) {
    ids != [] && !IsPending(c, ids[0])
  }

  /**
   FutureFinishedError comes up exactly when the entry at the head of the queue is stale. It takes
   that entry out of the queue and changes nothing else.
   */
  lemma FinishedErrorOfGet<T>(c: Chan<T>)
    requires Inv(c)
    ensures Res(c, GetNoWait) == Raised(FutureFinished) <==> c.container != [] && HeadIsStale(c, WriterIds(c.writers))
    ensures Res(c, Get) == Raised(FutureFinished) <==> Res(c, GetNoWait) == Raised(FutureFinished)
    ensures Res(c, GetNoWait) == Raised(FutureFinished) ==>
      Next(c, GetNoWait) == Next(c, Get) == c.(writers := c.writers[1..])
  {
  }

  lemma FinishedErrorOfPut<T>(c: Chan<T>, x: T)
    requires Inv(c)
    ensures Res(c, PutNoWait(x)) == Raised(FutureFinished) <==> !c.closed && HeadIsStale(c, c.readers)
    ensures Res(c, Put(x)) == Raised(FutureFinished) <==> Res(c, PutNoWait(x)) == Raised(FutureFinished)
    ensures Res(c, PutNoWait(x)) == Raised(FutureFinished) ==>
      Next(c, PutNoWait(x)) == Next(c, Put(x)) == c.(readers := c.readers[1..])
  {
  }

  /** It does come up: with a reader that was cancelled and has not resumed yet, */
  lemma StaleReaderOccurs<T>(x: T)
    ensures Results(Init([], None), [Get, CancelWaiter(0), PutNoWait(x)])[2] == Raised(FutureFinished)
  {
    var c: Chan<T> := Init([], None);
    RunCons(Next(c, Get), CancelWaiter(0), [PutNoWait(x)]);
    RunCons(c, Get, [CancelWaiter(0)] + [PutNoWait(x)]);
    assert [Get, CancelWaiter(0), PutNoWait(x)] == [Get] + ([CancelWaiter(0)] + [PutNoWait(x)]);
  }

  /** and with such a writer. */
  lemma StaleWriterOccurs<T>(x: T)
    ensures Results(Init([x], Some(1)), [Put(x), CancelWaiter(0), GetNoWait])[2] == Raised(FutureFinished)
  {
    var c: Chan<T> := Init([x], Some(1));
    RunCons(Next(c, Put(x)), CancelWaiter(0), [GetNoWait]);
    RunCons(c, Put(x), [CancelWaiter(0)] + [GetNoWait]);
    assert [Put(x), CancelWaiter(0), GetNoWait] == [Put(x)] + ([CancelWaiter(0)] + [GetNoWait]);
  }

  /** With only blocked coroutines in the queues no operation meets a finished future. */
  lemma NoFinishedError<T>(c: Chan<T>, l: Label<T>)
    requires Inv(c)
    requires forall id <- c.readers + WriterIds(c.writers) :: IsPending(c, id)
    ensures Res(c, l) != Raised(FutureFinished)
  {
    if c.readers != [] { assert c.readers[0] in c.readers + WriterIds(c.writers); }
    if c.writers != [] { assert WriterIds(c.writers)[0] in c.readers + WriterIds(c.writers); }
    match l
    case GetNoWait | Get => FinishedErrorOfGet(c);
    case PutNoWait(x) => FinishedErrorOfPut(c, x);
    case Put(x) => FinishedErrorOfPut(c, x);
    case _ =>
  }

  // ---------- Fairness ----------

  /** Only the head of a queue is served. */
  lemma OnlyHeadIsServed<T>(c: Chan<T>, l: Label<T>, id: nat)
    requires Inv(c)
    ensures Serves(c, l, id) ==>
      c.readers != [] && id == c.readers[0] && DeliveredBy(c, l) == [Next(c, l).promises[id].value]
    ensures Accepts(c, l, id) ==> c.writers != [] && id == c.writers[0].id && AcceptedBy(c, l) == [c.writers[0].elem]
  {
  }

  lemma {:induction false} FinishedStays<T>(c: Chan<T>, ls: seq<Label<T>>, id: nat)
    requires id < |c.promises| && !c.promises[id].Pending?
    ensures id < |After(c, ls).promises| && After(c, ls).promises[id] == c.promises[id]
    decreases |ls|
  {
    if ls != [] {
      FinishedStays(Next(c, ls[0]), ls[1..], id);
    }
  }

  /** Readers are given elements in the order of their arrival, and so are writers room. */
  lemma ServedInArrivalOrder<T>(c: Chan<T>, ls: seq<Label<T>>, l: Label<T>, first: nat, later: nat)
    requires Inv(c)
    requires first < |c.promises|
    ensures c.promises[first].Got? && Serves(After(c, ls), l, later) ==> first < later
    ensures c.promises[first].Accepted? && Accepts(After(c, ls), l, later) ==> first < later
  {
    var d := After(c, ls);
    RunKeepsInv(c, ls);
    OnlyHeadIsServed(d, l, later);
    if !c.promises[first].Pending? { FinishedStays(c, ls, first); }
    if d.writers != [] { assert WriterIds(d.writers)[0] == d.writers[0].id; }
  }

  // ---------- Close ----------

  ghost predicate IsSuffix<T>(a: seq<T>, b: seq<T>) {
    |a| <= |b| && a == b[|b| - |a|..]
  }

  lemma SuffixTransitive<T>(a: seq<T>, b: seq<T>, c: seq<T>)
    requires IsSuffix(a, b) && IsSuffix(b, c)
    ensures IsSuffix(a, c)
  {
  }

  /** A coroutine cannot put an element or be suspended any more. */
  ghost predicate RefusedWhenClosed<T>(l: Label<T>, r: Result<T>) {
    (l.Put? || l.PutNoWait? ==> r == Raised(Closed)) && !r.Suspended?
  }

  lemma ClosedStep<T>(c: Chan<T>, l: Label<T>)
    requires Inv(c) && c.closed
    ensures Next(c, l).closed && IsSuffix(Next(c, l).container, c.container)
    ensures RefusedWhenClosed(l, Res(c, l))
  {
    match l
    case GetNoWait | Get => ClosedGetNow(c);
    case _ =>
  }

  lemma ClosedGetNow<T>(c: Chan<T>)
    requires Inv(c) && c.closed
    ensures Next(c, Get) == Next(c, GetNoWait) && Res(c, Get) == Res(c, GetNoWait) && !Res(c, Get).Suspended?
    ensures Next(c, GetNoWait).closed && IsSuffix(Next(c, GetNoWait).container, c.container)
  {
    if c.container != [] && c.writers != [] {
      assert WriterIds(c.writers)[0] == c.writers[0].id;
    }
  }

  /** After `close` nobody is blocked ever again, puts fail, and the container only shrinks from the front. */
  lemma {:induction false} CloseLeavesNobodyHanging<T>(c: Chan<T>, ls: seq<Label<T>>)
    requires Inv(c) && c.closed
    ensures After(c, ls).closed && NobodyPending(After(c, ls)) && IsSuffix(After(c, ls).container, c.container)
    ensures forall k | 0 <= k < |ls| :: RefusedWhenClosed(ls[k], Results(c, ls)[k])
    decreases |ls|
  {
    if ls != [] {
      var c1, rest := Next(c, ls[0]), ls[1..];
      ClosedStep(c, ls[0]);
      StepKeepsInv(c, ls[0]);
      CloseLeavesNobodyHanging(c1, rest);
      SuffixTransitive(After(c1, rest).container, c1.container, c.container);
      forall k | 0 <= k < |ls| ensures RefusedWhenClosed(ls[k], Results(c, ls)[k]) {
        if k > 0 { assert RefusedWhenClosed(rest[k - 1], Results(c1, rest)[k - 1]); }
      }
    }
  }

  function Gets<T>(n: nat): (ls: seq<Label<T>>)
    ensures |ls| == n
  {
    if n == 0 then [] else [GetNoWait] + Gets(n - 1)
  }

  /** What the i-th of a row of gets on a closed channel does. */
  ghost function ClosedGet<T>(c: Chan<T>, i: nat): Result<T> {
    if c.container == [] then Raised(Closed)
    else if i < |c.writers| then Raised(FutureFinished)
    else if i - |c.writers| < |c.container| then Value(c.container[i - |c.writers|])
    else Raised(Closed)
  }

  /**
   The gets on a closed channel: one error for each writer that was still queued, then the remaining
   elements in order, then Closed forever.
   */
  lemma {:induction false} ClosedGetsDrain<T>(c: Chan<T>, n: nat)
    requires Inv(c) && c.closed
    ensures forall i | 0 <= i < n :: Results(c, Gets(n))[i] == ClosedGet(c, i)
    decreases n
  {
    if n > 0 {
      var c1 := Next(c, GetNoWait);
      StepKeepsInv(c, GetNoWait);
      assert Gets<T>(n)[1..] == Gets(n - 1);
      ClosedGetsDrain(c1, n - 1);
      forall i | 0 <= i < n ensures Results(c, Gets(n))[i] == ClosedGet(c, i) {
        if i > 0 { assert ClosedGet(c1, i - 1) == ClosedGet(c, i); }
      }
    }
  }

  // ---------- The end of a wait ----------

  /**
   A reader that was served returns its element when it resumes, whatever happens in between; unless
   its task was cancelled in between, and then the element is gone.
   */
  lemma ServedReaderReturns<T>(c: Chan<T>, l: Label<T>, ls: seq<Label<T>>, id: nat, thrown: bool)
    requires Inv(c) && Serves(c, l, id)
    requires Enabled(After(Next(c, l), ls), Resume(id, thrown))
    ensures [Res(After(Next(c, l), ls), Resume(id, thrown))] ==
      if thrown then [Raised(Cancelled)] else [Value(DeliveredBy(c, l)[0])]
  {
    OnlyHeadIsServed(c, l, id);
    FinishedStays(Next(c, l), ls, id);
  }

  lemma ElementCanBeLost<T>(x: T) returns (ls: seq<Label<T>>)
    ensures AllAccepted(Init([], None), ls) == [x]
    ensures Results(Init([], None), ls) == [Suspended(0), Done, Raised(Cancelled)]
    ensures After(Init([], None), ls).container == []
  {
    var c: Chan<T> := Init([], None);
    var c1 := Next(c, Get);
    var c2 := Next(c1, PutNoWait(x));
    RunCons(c2, Resume(0, true), []);
    RunCons(c1, PutNoWait(x), [Resume(0, true)]);
    RunCons(c, Get, [PutNoWait(x), Resume(0, true)]);
    ls := [Get] + ([PutNoWait(x)] + ([Resume(0, true)] + []));
  }
}
