/**
 The channel of aio/channel.py as a state machine. A coroutine blocked in `get` or `put` owns a
 promise, numbered in the order of arrival. Its wait ends in two phases: first the promise is
 finished, and only later, when the coroutine resumes, is its entry taken out of the queue.
 */
module ChannelMachine {
  import opened Wrappers

  datatype Error = Closed | Empty | Overflowed | FutureFinished | AssertionFailed | Cancelled

  datatype Promise<T> =
    | Pending
    | Got(value: T)         // a reader was given an element
    | Accepted              // the element of a writer is in the container
    | Failed(error: Error)  // the channel was closed, or the coroutine cancelled

  datatype WriteWaiter<T> = WriteWaiter(elem: T, id: nat)

  datatype Chan<T> = Chan(
    container: seq<T>,
    readers: seq<nat>,
    writers: seq<WriteWaiter<T>>,
    promises: seq<Promise<T>>,
    resumed: set<nat>,              // the coroutines that are past their wait
    maxCapacity: Option<int>,
    closed: bool)

  datatype Label<T> =
    | GetNoWait
    | Get                           // up to its suspension, if it suspends
    | PutNoWait(elem: T)
    | Put(elem: T)
    | Close
    | CancelWaiter(id: nat)         // cancellation reaches the promise of a blocked coroutine
    | Resume(id: nat, thrown: bool) // the coroutine goes on after its promise was finished; if its task
                                    // was cancelled since, a cancellation is thrown into it instead

  datatype Result<T> =
    | Value(value: T)
    | Done
    | Suspended(id: nat)
    | Raised(error: Error)

  function Init<T>(prepopulate: seq<T>, maxCapacity: Option<int>): Chan<T> {
    Chan(prepopulate, [], [], [], {}, maxCapacity, false)
  }

  predicate IsPending<T>(c: Chan<T>, id: nat) {
    id < |c.promises| && c.promises[id].Pending?
  }

  /** `set_result` or `set_exception` on a pending promise */
  function Finish<T>(c: Chan<T>, id: nat, p: Promise<T>): Chan<T>
    requires id < |c.promises|
  {
    c.(promises := c.promises[id := p])
  }

  predicate IsFull<T>(c: Chan<T>) {
    c.maxCapacity.Some? && |c.container| >= c.maxCapacity.value
  }

  // ---------- get ----------

  /** `get_no_wait` once it is known that a writer waits and the container is full. */
  function TakeAndRefill<T>(c: Chan<T>): (Chan<T>, Result<T>)
    requires c.container != [] && c.writers != []
  {
    var w := c.writers[0];
    var c1 := c.(writers := c.writers[1..]);
    if !IsPending(c1, w.id) then (c1, Raised(FutureFinished))
    else (Finish(c1, w.id, Accepted).(container := c.container[1..] + [w.elem]), Value(c.container[0]))
  }

  function GetNow<T>(c: Chan<T>): (Chan<T>, Result<T>) {
    if c.container == [] then (c, Raised(if c.closed then Closed else Empty))
    else if c.readers != [] then (c, Raised(AssertionFailed))
    else if c.writers != [] && c.maxCapacity.Some? then
      if |c.container| != c.maxCapacity.value then (c, Raised(AssertionFailed)) else TakeAndRefill(c)
    else (c.(container := c.container[1..]), Value(c.container[0]))
  }

  function GetOrWait<T>(c: Chan<T>): (Chan<T>, Result<T>) {
    var (c1, r) := GetNow(c);
    if r != Raised(Empty) then (c1, r)
    else (c.(promises := c.promises + [Pending], readers := c.readers + [|c.promises|]), Suspended(|c.promises|))
  }

  // ---------- put ----------

  /** `put_no_wait` once it is known that a reader waits and the container is empty. */
  function HandOver<T>(c: Chan<T>, elem: T): (Chan<T>, Result<T>)
    requires c.readers != []
  {
    var id := c.readers[0];
    var c1 := c.(readers := c.readers[1..]);
    if !IsPending(c1, id) then (c1, Raised(FutureFinished)) else (Finish(c1, id, Got(elem)), Done)
  }

  function PutNow<T>(c: Chan<T>, elem: T): (Chan<T>, Result<T>) {
    if c.closed then (c, Raised(Closed))
    else if IsFull(c) then (c, Raised(if c.readers != [] then AssertionFailed else Overflowed))
    else if c.readers != [] then
      if c.container != [] then (c, Raised(AssertionFailed)) else HandOver(c, elem)
    else (c.(container := c.container + [elem]), Done)
  }

  function PutOrWait<T>(c: Chan<T>, elem: T): (Chan<T>, Result<T>) {
    var (c1, r) := PutNow(c, elem);
    if r != Raised(Overflowed) then (c1, r)
    else (c.(promises := c.promises + [Pending], writers := c.writers + [WriteWaiter(elem, |c.promises|)]),
          Suspended(|c.promises|))
  }

  // ---------- The end of a wait ----------

  function WriterIds<T>(ws: seq<WriteWaiter<T>>): (ids: seq<nat>)
    ensures |ids| == |ws|
  {
    seq(|ws|, i requires 0 <= i < |ws| => ws[i].id)
  }

  /** `close` fails every promise in a queue that is not finished yet. */
  function CloseAll<T>(c: Chan<T>): Chan<T> {
    var ids := c.readers + WriterIds(c.writers);
    c.(closed := true,
       promises := seq(|c.promises|, i requires 0 <= i < |c.promises| =>
         if i in ids && c.promises[i].Pending? then Failed(Closed) else c.promises[i]))
  }

  function RemoveId(ids: seq<nat>, id: nat): seq<nat> {
    if ids == [] then [] else if ids[0] == id then ids[1..] else [ids[0]] + RemoveId(ids[1..], id)
  }

  function RemoveWriter<T>(ws: seq<WriteWaiter<T>>, id: nat): seq<WriteWaiter<T>> {
    if ws == [] then [] else if ws[0].id == id then ws[1..] else [ws[0]] + RemoveWriter(ws[1..], id)
  }

  /** What the blocked `get` or `put` does when its coroutine resumes. */
  function Outcome<T>(p: Promise<T>, thrown: bool): Result<T>
    requires !p.Pending?
  {
    if thrown then Raised(Cancelled) else
    match p
    case Got(v) => Value(v)
    case Accepted => Done
    case Failed(e) => Raised(e)
  }

  predicate Enabled<T>(c: Chan<T>, l: Label<T>) {
    match l
    case CancelWaiter(id) => IsPending(c, id)
    case Resume(id, _) => id < |c.promises| && !c.promises[id].Pending? && id !in c.resumed
    case _ => true
  }

  /** A label that is not possible now changes nothing, so every list of labels is a run. */
  function Step<T>(c: Chan<T>, l: Label<T>): (Chan<T>, Result<T>) {
    if !Enabled(c, l) then (c, Done) else
    match l
    case GetNoWait => GetNow(c)
    case Get => GetOrWait(c)
    case PutNoWait(x) => PutNow(c, x)
    case Put(x) => PutOrWait(c, x)
    case Close => (CloseAll(c), Done)
    case CancelWaiter(id) => (Finish(c, id, Failed(Cancelled)), Done)
    case Resume(id, thrown) =>
      (c.(readers := RemoveId(c.readers, id), writers := RemoveWriter(c.writers, id), resumed := c.resumed + {id}),
       Outcome(c.promises[id], thrown))
  }

  function Next<T>(c: Chan<T>, l: Label<T>): Chan<T> {
    Step(c, l).0
  }

  function Res<T>(c: Chan<T>, l: Label<T>): Result<T> {
    Step(c, l).1
  }

  // ---------- Runs ----------

  function After<T>(c: Chan<T>, ls: seq<Label<T>>): Chan<T>
    decreases |ls|
  {
    if ls == [] then c else After(Next(c, ls[0]), ls[1..])
  }

  function Results<T>(c: Chan<T>, ls: seq<Label<T>>): (rs: seq<Result<T>>)
    ensures |rs| == |ls|
    decreases |ls|
  {
    if ls == [] then [] else [Res(c, ls[0])] + Results(Next(c, ls[0]), ls[1..])
  }

  // ---------- What goes in and what comes out, as seen from outside ----------

  /** The step ends the wait of a writer by accepting its element. */
  predicate Accepts<T>(c: Chan<T>, l: Label<T>, id: nat)
  {
    IsPending(c, id) && id < |Next(c, l).promises| && Next(c, l).promises[id].Accepted?
  }

  /** The step ends the wait of a reader by giving it an element. */
  predicate Serves<T>(c: Chan<T>, l: Label<T>, id: nat)
  {
    IsPending(c, id) && id < |Next(c, l).promises| && Next(c, l).promises[id].Got?
  }

  /** The element that the step accepts: of a `put` that returns, or of a writer whose wait it ends. */
  function AcceptedBy<T>(c: Chan<T>, l: Label<T>): seq<T>
  {
    if l.PutNoWait? || l.Put? then if Res(c, l) == Done then [l.elem] else []
    else if c.writers != [] && Accepts(c, l, c.writers[0].id) then [c.writers[0].elem]
    else []
  }

  /** The element that the step delivers: returned by a `get`, or given to a reader whose wait it ends. */
  function DeliveredBy<T>(c: Chan<T>, l: Label<T>): seq<T>
  {
    if l.GetNoWait? || l.Get? then if Res(c, l).Value? then [Res(c, l).value] else []
    else if c.readers != [] && Serves(c, l, c.readers[0]) then [Next(c, l).promises[c.readers[0]].value]
    else []
  }

  function AllAccepted<T>(c: Chan<T>, ls: seq<Label<T>>): seq<T>
    decreases |ls|
  {
    if ls == [] then [] else AcceptedBy(c, ls[0]) + AllAccepted(Next(c, ls[0]), ls[1..])
  }

  function AllDelivered<T>(c: Chan<T>, ls: seq<Label<T>>): seq<T>
    decreases |ls|
  {
    if ls == [] then [] else DeliveredBy(c, ls[0]) + AllDelivered(Next(c, ls[0]), ls[1..])
  }
}
