/** `_Queue` of aio/channel.py, with its promises in a table. Every method does what ChannelMachine says. */
module Channel {
  import opened Wrappers
  import opened ChannelMachine

  class Queue<T> {
    var container: seq<T>
    var readWaiters: seq<nat>
    var writeWaiters: seq<WriteWaiter<T>>
    var promises: seq<Promise<T>>
    var closed: bool
    const maxCapacity: Option<int>
    var resumed: set<nat>       // the coroutines that are past their wait

    ghost function State(): Chan<T>
      reads this
    {
      Chan(container, readWaiters, writeWaiters, promises, resumed, maxCapacity, closed)
    }

    ghost predicate Valid()
      reads this
    {
      && (forall id <- readWaiters :: id < |promises|)
      && (forall w <- writeWaiters :: w.id < |promises|)
    }

    constructor (prepopulate: seq<T>, maxCapacity: Option<int>)
      ensures Valid() && State() == Init(prepopulate, maxCapacity)
    {
      container, readWaiters, writeWaiters, promises, closed := prepopulate, [], [], [], false;
      this.maxCapacity := maxCapacity;
      resumed := {};
    }

    /** `set_result`; false stands for FutureFinishedError. */
    method SetResult(id: nat, p: Promise<T>) returns (ok: bool)
      requires Valid() && id < |promises|
      modifies this`promises
      ensures Valid() && ok == old(promises)[id].Pending?
      ensures promises == if ok then old(promises)[id := p] else old(promises)
    {
      ok := promises[id].Pending?;
      if ok {
        promises := promises[id := p];
      }
    }

    method GetNoWait() returns (r: Result<T>)
      requires Valid()
      modifies this
      ensures Valid() && (State(), r) == GetNow(old(State()))
    {
      if closed && |container| == 0 {
        return Raised(Closed);
      }
      if |container| == 0 {
        return Raised(Empty);
      }
      if |readWaiters| != 0 {
        return Raised(AssertionFailed);
      }
      if |writeWaiters| > 0 && maxCapacity.Some? {
        if |container| != maxCapacity.value {
          return Raised(AssertionFailed);
        }
        var writer := writeWaiters[0];
        assert writer in writeWaiters;
        writeWaiters := writeWaiters[1..];
        var ok := SetResult(writer.id, Accepted);
        if !ok {
          return Raised(FutureFinished);
        }
        var elemToReturn := container[0];
        container := container[1..];
        container := container + [writer.elem];
        return Value(elemToReturn);
      }
      r := Value(container[0]);
      container := container[1..];
    }

    method Get() returns (r: Result<T>)
      requires Valid()
      modifies this
      ensures Valid() && (State(), r) == GetOrWait(old(State()))
    {
      r := GetNoWait();
      if r.Raised? && r.error.Empty? {
        var waiter := |promises|;
        promises := promises + [Pending];
        readWaiters := readWaiters + [waiter];
        r := Suspended(waiter);
      }
    }

    method PutNoWait(elem: T) returns (r: Result<T>)
      requires Valid()
      modifies this
      ensures Valid() && (State(), r) == PutNow(old(State()), elem)
    {
      if closed {
        return Raised(Closed);
      }
      if maxCapacity.Some? && |container| >= maxCapacity.value {
        return Raised(if |readWaiters| != 0 then AssertionFailed else Overflowed);
      }
      if |readWaiters| > 0 {
        if |container| != 0 {
          return Raised(AssertionFailed);
        }
        var waiter := readWaiters[0];
        assert waiter in readWaiters && forall id <- readWaiters[1..] :: id in readWaiters;
        readWaiters := readWaiters[1..];
        var ok := SetResult(waiter, Got(elem));
        return if ok then Done else Raised(FutureFinished);
      }
      container := container + [elem];
      r := Done;
    }

    method Put(elem: T) returns (r: Result<T>)
      requires Valid()
      modifies this
      ensures Valid() && (State(), r) == PutOrWait(old(State()), elem)
    {
      r := PutNoWait(elem);
      if r.Raised? && r.error.Overflowed? {
        var waiter := |promises|;
        promises := promises + [Pending];
        writeWaiters := writeWaiters + [WriteWaiter(elem, waiter)];
        r := Suspended(waiter);
      }
    }

    method Close()
      requires Valid()
      modifies this
      ensures Valid() && State() == CloseAll(old(State()))
    {
      ghost var writers, readers := WriterIds(writeWaiters), readWaiters;
      closed := true;
      for k := 0 to |writeWaiters|
        invariant State() == old(State()).(closed := true, promises := promises) && Valid()
        invariant promises == ClosedPromises(old(promises), writers[..k])
      {
        var id := writeWaiters[k].id;
        assert writeWaiters[k] in writeWaiters && writers[k] == id;
        ClosedOneMore(old(promises), writers, k);
        if promises[id].Pending? {
          promises := promises[id := Failed(Closed)];
        }
      }
      ghost var half := promises;
      assert writers[..|writers|] == writers;
      for k := 0 to |readWaiters|
        invariant State() == old(State()).(closed := true, promises := promises) && Valid()
        invariant promises == ClosedPromises(half, readers[..k])
      {
        var id := readWaiters[k];
        assert id in readWaiters;
        ClosedOneMore(half, readers, k);
        if promises[id].Pending? {
          promises := promises[id := Failed(Closed)];
        }
      }
      assert readers[..|readers|] == readers;
    }

    /** A cancellation reaches the promise of a blocked coroutine. */
    method CancelWaiter(id: nat)
      requires Valid() && IsPending(State(), id)
      modifies this`promises
      ensures Valid() && State() == Finish(old(State()), id, Failed(Cancelled))
    {
      promises := promises[id := Failed(Cancelled)];
    }

    /** The coroutine blocked in `get` or `put` goes on: its entry, if still there, leaves the queue. */
    method Resume(id: nat, thrown: bool) returns (r: Result<T>)
      requires Valid() && Enabled(State(), Label.Resume(id, thrown))
      modifies this
      ensures Valid() && (State(), r) == Step(old(State()), Label.Resume(id, thrown))
    {
      RemovedAreLeft(readWaiters, writeWaiters, id);
      readWaiters := RemoveId(readWaiters, id);
      writeWaiters := RemoveWriter(writeWaiters, id);
      resumed := resumed + {id};
      r := Outcome(promises[id], thrown);
    }

    method Do(l: Label<T>) returns (r: Result<T>)
      requires Valid()
      modifies this
      ensures Valid() && (State(), r) == Step(old(State()), l)
    {
      match l
      case GetNoWait => r := GetNoWait();
      case Get => r := Get();
      case PutNoWait(x) => r := PutNoWait(x);
      case Put(x) => r := Put(x);
      case Close =>
        Close();
        r := Done;
      case CancelWaiter(id) =>
        if id < |promises| && promises[id].Pending? {
          CancelWaiter(id);
        }
        r := Done;
      case Resume(id, thrown) =>
        if id < |promises| && !promises[id].Pending? && id !in resumed {
          r := Resume(id, thrown);
        } else {
          r := Done;
        }
    }

    /** A whole run. */
    method Drive(ls: seq<Label<T>>) returns (rs: seq<Result<T>>)
      requires Valid()
      modifies this
      ensures Valid() && State() == After(old(State()), ls) && rs == Results(old(State()), ls)
    {
      rs := [];
      assert ls[0..] == ls;
      for k := 0 to |ls|
        invariant Valid() && After(State(), ls[k..]) == After(old(State()), ls)
        invariant rs + Results(State(), ls[k..]) == Results(old(State()), ls)
      {
        assert ls[k..][0] == ls[k] && ls[k..][1..] == ls[k + 1..];
        var r := Do(ls[k]);
        rs := rs + [r];
      }
    }
  }

  ghost function ClosedPromises<T>(promises: seq<Promise<T>>, ids: seq<nat>): (r: seq<Promise<T>>)
    ensures |r| == |promises|
  {
    seq(|promises|, i requires 0 <= i < |promises| =>
      if i in ids && promises[i].Pending? then Failed(Closed) else promises[i])
  }

  lemma ClosedOneMore<T>(promises: seq<Promise<T>>, ids: seq<nat>, k: nat)
    requires k < |ids| && ids[k] < |promises|
    ensures var before := ClosedPromises(promises, ids[..k]);
      ClosedPromises(promises, ids[..k + 1])
      == if before[ids[k]].Pending? then before[ids[k] := Failed(Closed)] else before
  {
    assert ids[..k + 1] == ids[..k] + [ids[k]];
  }

  lemma {:induction false} RemovedAreLeft<T>(readers: seq<nat>, writers: seq<WriteWaiter<T>>, id: nat)
    ensures forall x <- RemoveId(readers, id) :: x in readers
    ensures forall w <- RemoveWriter(writers, id) :: w in writers
    decreases |readers| + |writers|
  {
    if readers != [] { RemovedAreLeft(readers[1..], writers, id); }
    if writers != [] { RemovedAreLeft(readers, writers[1..], id); }
  }
}
