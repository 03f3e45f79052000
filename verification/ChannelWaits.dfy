/** What `get` and `put` answer: at once, or, when they block, at the end of their wait. */
module ChannelWaits {
  import opened Wrappers
  import opened ChannelMachine
  import opened ChannelProperties
  import opened ChannelRuns

  // ---------- At once ----------

  /** The operation blocks with a new promise. */
  predicate Blocks<T(==)>(c: Chan<T>, l: Label<T>) {
    Res(c, l) == Suspended(|c.promises|) && IsPending(Next(c, l), |c.promises|)
  }

  /**
   A get gives the first element; without one it raises Closed, or Empty, or blocks at the end of the
   queue. The stale head of `FinishedErrorOfGet` is the one exception.
   */
  lemma GetAnswers<T>(c: Chan<T>)
    requires Inv(c)
    ensures c.container == [] && c.closed ==> Res(c, GetNoWait) == Res(c, Get) == Raised(Closed)
    ensures c.container == [] && !c.closed ==>
      Res(c, GetNoWait) == Raised(Empty) && Next(c, GetNoWait) == c
      && Blocks(c, Get) && Next(c, Get).readers == c.readers + [|c.promises|] && Next(c, Get).writers == c.writers
    ensures c.container != [] && Res(c, GetNoWait) != Raised(FutureFinished) ==>
      Res(c, GetNoWait) == Res(c, Get) == Value(c.container[0])
  {
  }

  /**
   A put raises Closed on a closed channel; on a full one it raises Overflowed, or blocks at the end of the
   queue with its element; else it returns. The stale head of `FinishedErrorOfPut` is the one exception.
   */
  lemma PutAnswers<T>(c: Chan<T>, x: T)
    requires Inv(c)
    ensures c.closed ==> Res(c, PutNoWait(x)) == Res(c, Put(x)) == Raised(Closed)
    ensures !c.closed && c.maxCapacity == Some(|c.container|) ==>
      Res(c, PutNoWait(x)) == Raised(Overflowed) && Next(c, PutNoWait(x)) == c
      && Res(c, Put(x)) == Suspended(|c.promises|) && IsPending(Next(c, Put(x)), |c.promises|)
      && Next(c, Put(x)).writers == c.writers + [WriteWaiter(x, |c.promises|)] && Next(c, Put(x)).readers == c.readers
    ensures !c.closed && c.maxCapacity != Some(|c.container|) && Res(c, PutNoWait(x)) != Raised(FutureFinished) ==>
      Res(c, PutNoWait(x)) == Res(c, Put(x)) == Done
  {
  }

  /** Closing answers nothing, and can be done twice. */
  lemma CloseAnswers<T>(c: Chan<T>)
    requires Inv(c)
    ensures Res(c, Close) == Done && Next(c, Close).closed && Next(c, Close).container == c.container
    ensures NobodyPending(Next(c, Close)) && (c.closed ==> Next(c, Close) == c)
  {
    forall i | 0 <= i < |c.promises| && c.promises[i].Pending? ensures i in c.readers + WriterIds(c.writers) {
      assert IsPending(c, i);
    }
  }

  // ---------- At the end of a wait ----------

  /**
   The label ends the wait of `id`, which then answers `r`: a get that returns lets the first writer in, a
   put that returns hands its element to the first reader, `close` ends every wait, a cancellation one.
   */
  ghost predicate EndsWait<T>(c: Chan<T>, l: Label<T>, id: nat, r: Result<T>) {
    && IsPending(c, id)
    && match r
       case Done => (l.GetNoWait? || l.Get?) && Res(c, l).Value? && c.writers != [] && c.writers[0].id == id
       case Value(v) =>
         (l.PutNoWait? || l.Put?) && l.elem == v && Res(c, l) == Done && c.readers != [] && c.readers[0] == id
       case Raised(e) => (l.Close? && e == Closed) || (l == CancelWaiter(id) && e == Cancelled)
       case Suspended(_) => false
  }

  /** What the coroutine gets when it resumes now, and nothing was thrown into it. */
  ghost predicate WouldAnswer<T>(c: Chan<T>, id: nat, r: Result<T>) {
    id < |c.promises| && !c.promises[id].Pending? && id !in c.resumed && Res(c, Resume(id, false)) == r
  }

  lemma NotYetResumed<T>(c: Chan<T>, l: Label<T>, id: nat)
    requires Inv(c) && IsPending(c, id)
    ensures id !in c.resumed && id !in Next(c, l).resumed && id < |Next(c, l).promises|
  {
    assert id in c.readers || id in WriterIds(c.writers);
  }

  lemma GetEndsWait<T>(c: Chan<T>, l: Label<T>, id: nat, r: Result<T>)
    requires Inv(c) && IsPending(c, id) && (l.GetNoWait? || l.Get?)
    ensures EndsWait(c, l, id, r) <==> WouldAnswer(Next(c, l), id, r)
  {
    NotYetResumed(c, l, id);
    if c.container != [] && c.writers != [] { assert WriterIds(c.writers)[0] == c.writers[0].id; }
  }

  lemma PutEndsWait<T>(c: Chan<T>, l: Label<T>, id: nat, r: Result<T>)
    requires Inv(c) && IsPending(c, id) && (l.PutNoWait? || l.Put?)
    ensures EndsWait(c, l, id, r) <==> WouldAnswer(Next(c, l), id, r)
  {
    NotYetResumed(c, l, id);
  }

  lemma CloseEndsWait<T>(c: Chan<T>, id: nat, r: Result<T>)
    requires Inv(c) && IsPending(c, id)
    ensures EndsWait(c, Close, id, r) <==> WouldAnswer(Next(c, Close), id, r)
  {
    NotYetResumed(c, Close, id);
    assert id in c.readers + WriterIds(c.writers);
    assert Next(c, Close).promises[id] == Failed(Closed);
  }

  /** A wait is ended by one label, with the answer that goes with it. */
  lemma LabelEndsWait<T>(c: Chan<T>, l: Label<T>, id: nat, r: Result<T>)
    requires Inv(c) && IsPending(c, id)
    ensures EndsWait(c, l, id, r) <==> WouldAnswer(Next(c, l), id, r)
  {
    match l
    case GetNoWait => GetEndsWait(c, l, id, r);
    case Get => GetEndsWait(c, l, id, r);
    case PutNoWait(_) => PutEndsWait(c, l, id, r);
    case Put(_) => PutEndsWait(c, l, id, r);
    case Close => CloseEndsWait(c, id, r);
    case _ => NotYetResumed(c, l, id);
  }

  ghost predicate EndedIn<T>(c: Chan<T>, ls: seq<Label<T>>, id: nat, r: Result<T>)
    decreases |ls|
  {
    ls != [] && (EndsWait(c, ls[0], id, r) || EndedIn(Next(c, ls[0]), ls[1..], id, r))
  }

  lemma {:induction false} EndedOnce<T>(c: Chan<T>, ls: seq<Label<T>>, id: nat, r: Result<T>)
    requires id < |c.promises| && !c.promises[id].Pending?
    ensures !EndedIn(c, ls, id, r)
    decreases |ls|
  {
    if ls != [] {
      FinishedStays(c, [ls[0]], id);
      assert [ls[0]][1..] == [] && After(c, [ls[0]]) == Next(c, ls[0]);
      EndedOnce(Next(c, ls[0]), ls[1..], id, r);
    }
  }

  /**
   A blocked get or put, in any run: what it answers when it resumes is what goes with the label that has
   ended its wait. A put returns if and only if a get has let its element in; a get returns the element
   of the put that was handed to it; Closed is raised if and only if the channel was closed meanwhile, and
   Cancelled if and only if the wait was cancelled. If a cancellation is thrown into the coroutine after
   the end of its wait, it raises Cancelled.
   */
  lemma {:induction false} BlockedAnswers<T>(c: Chan<T>, ls: seq<Label<T>>, id: nat, r: Result<T>)
    requires Inv(c) && IsPending(c, id) && Enabled(After(c, ls), Resume(id, false))
    ensures Res(After(c, ls), Resume(id, false)) == r <==> EndedIn(c, ls, id, r)
    ensures Res(After(c, ls), Resume(id, true)) == Raised(Cancelled)
    decreases |ls|
  {
    if ls != [] {
      var l, rest := ls[0], ls[1..];
      StepKeepsInv(c, l);
      LabelEndsWait(c, l, id, r);
      NotYetResumed(c, l, id);
      if IsPending(Next(c, l), id) {
        BlockedAnswers(Next(c, l), rest, id, r);
      } else {
        FinishedStays(Next(c, l), rest, id);
        EndedOnce(Next(c, l), rest, id, r);
      }
    }
  }

  // ---------- The element of a blocked put ----------

  lemma WriterKept<T>(c: Chan<T>, l: Label<T>, w: WriteWaiter<T>)
    requires Inv(c) && w in c.writers && IsPending(c, w.id) && IsPending(Next(c, l), w.id)
    ensures w in Next(c, l).writers
  {
    if c.writers != [] && Next(c, l).writers == c.writers[1..] && c.writers[0] != w {
      assert c.writers == [c.writers[0]] + c.writers[1..];
    }
    if l.Resume? && l.id != w.id { RemoveOther(c.writers, l.id, w); }
  }

  lemma {:induction false} RemoveOther<T>(ws: seq<WriteWaiter<T>>, id: nat, w: WriteWaiter<T>)
    requires w in ws && w.id != id
    ensures w in RemoveWriter(ws, id)
  {
    if ws[0] != w {
      assert ws == [ws[0]] + ws[1..];
      if ws[0].id != id { RemoveOther(ws[1..], id, w); }
    }
  }

  lemma {:induction false} WriterKeptInRun<T>(c: Chan<T>, ls: seq<Label<T>>, w: WriteWaiter<T>)
    requires Inv(c) && w in c.writers && IsPending(c, w.id) && IsPending(After(c, ls), w.id)
    ensures Inv(After(c, ls)) && w in After(c, ls).writers
    decreases |ls|
  {
    if ls != [] {
      StepKeepsInv(c, ls[0]);
      NotYetResumed(c, ls[0], w.id);
      if !IsPending(Next(c, ls[0]), w.id) { FinishedStays(Next(c, ls[0]), ls[1..], w.id); }
      WriterKept(c, ls[0], w);
      WriterKeptInRun(Next(c, ls[0]), ls[1..], w);
    }
  }

  /** The element that is let in when a blocked put ends well is the one that it was called with. */
  lemma BlockedPutIsAccepted<T>(c: Chan<T>, x: T, ls: seq<Label<T>>, l: Label<T>)
    requires Inv(c) && Res(c, Put(x)) == Suspended(|c.promises|)
    requires EndsWait(After(Next(c, Put(x)), ls), l, |c.promises|, Done)
    ensures AcceptedBy(After(Next(c, Put(x)), ls), l) == [x]
  {
    var c1, w := Next(c, Put(x)), WriteWaiter(x, |c.promises|);
    StepKeepsInv(c, Put(x));
    WriterKeptInRun(c1, ls, w);
    var d := After(c1, ls);
    OneWriter(d, w);
    assert WriterIds(d.writers)[0] == d.writers[0].id;
    GetEndsWait(d, l, w.id, Done);
  }

  lemma OneWriter<T>(c: Chan<T>, w: WriteWaiter<T>)
    requires Inv(c) && w in c.writers && c.writers[0].id == w.id
    ensures c.writers[0] == w
  {
    var i :| 0 <= i < |c.writers| && c.writers[i] == w;
    assert WriterIds(c.writers)[0] == w.id && WriterIds(c.writers)[i] == w.id;
  }
}
