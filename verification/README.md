# aio: a verified model of its runtime

`aio` is a single-threaded async runtime in Python. This project models the parts of it that keep
state and compose, and proves what holds over every run of them.

* **Futures and tasks** (`aio/future/pure.py`, `aio/future/cimpl.c`). `FutureMachine` is a machine of
  labelled steps over any number of futures, tasks and handles. A coroutine is the environment: while it
  runs, any other label may occur; it ends by yielding a pending future that does not lead back to its own
  task, by returning, or by raising. `WakeUps`, `Reachability` and `Callbacks` hold the invariants,
  `FutureRuns`, `Outcomes` and `Cancellation` the results about all runs. `PureRuntime` is the pure
  implementation and `CRuntime` the C implementation with its two tagged unions; both are classes that update
  their fields in place, proved against the machine. `CSimulation` relates the unions to the machine and says where the two
  differ, and `BothRuntimes` drives both on the same labels.
* **The entry point** (`aio/loop/entry.py`): `Entry` adds the root task, `receive_result` and the runner's flag.
* **The scheduler** (`aio/loop/pure/scheduler.py`). `Heap` is the binary heap of Python's `heapq` on the raw
  list, `Scheduler` the two classes. They are proved against `StableQueue`, a list in enqueue order that is
  popped by a stable sort. Only `next_event` shows the order inside the heap.
* **The event loop and its runner** (`aio/loop/pure/impl.py`). `LoopMachine` is one step of the loop, and its
  runs, over the stable list; callbacks are scripts that enqueue, cancel, stop, let time pass and raise.
  `LoopProperties` and `LoopRuns` hold the results about everything a loop can come to, inside `run_loop` and
  outside of it, `LoopMoments`, `LoopTimes` and `LoopOrder` those about the middle of a step. `EventLoop` is
  the loop over handle objects and the scheduler class, proved to do what the machine does.
* **Futures on the event loop**. `LoopOfFutures` puts the two machines together: the callbacks of the loop are
  the handles of the futures. `Fairness` says what the loop then does for its tasks: it does not sleep over
  one that can be stepped, steps each within one step of its own, and unwinds a cancelled chain in as many
  steps as the chain has tasks.
* **The channel** (`aio/channel.py`). `ChannelMachine` has waiters that end their wait in two phases: first
  the promise is finished, later the resumed coroutine takes its entry out of the queue. `ChannelProperties`,
  `ChannelRuns` and `ChannelWaits` hold the results, `Channel` is the class.

Four expectations a reader may have are false of the code, and are settled exactly:

* The asserts of the channel can fail, because its constructor checks nothing. They hold in every run if
  and only if the capacity is absent, or at least 1 and not below the number of elements given at the start
  (`ChannelRuns.AssertsHoldIffWellConfigured`).
* `next_event` is not always the least time of the live timers (`Scheduler.NextEventCanOvershoot`). Call a
  live entry of the heap exposed if all its ancestors are cancelled. The answer is the least if and only if
  the exposed entry of smallest index is earliest among the exposed ones (`Scheduler.NextEventIsLeastExactly`).
  The step and the draining of a stopped runner do not need more than some live time.
* An element that was given to a blocked reader is lost if the reader's task is cancelled before it resumes,
  and only then (`ChannelRuns.ElementCanBeLost`, `ChannelRuns.ServedReaderReturns`).
* The two implementations of futures are not interchangeable: the C future hands its result to the awaiting
  coroutine as the value of a StopIteration, which takes tuples and instances of StopIteration apart
  (`CSimulation.DeliveredAlikeExactly`), and the two refuse a task as a promise with different errors. At all
  other labels of every run they agree (`BothRuntimes.Compare`).

Python's and C's arbitrary order in which a callback set is iterated is a parameter of the labels, called
`order`. Time is `real`; the clock and the selector are part of the environment and never move time back.

## Model

| member | source | states |
|---|---|---|
| FutureRuns.ExactlyOneWakeUp | aio/future/pure.py:339-431 | In every reachable state a task that is scheduled, cancelling or running, and whose coroutine is not executing, has exactly one way to be stepped: one live handle, or its `_step` in the callbacks of one unfinished future. Every other task has none. |
| FutureRuns.GuardsUnreachable | aio/future/pure.py:207-431 | No run trips an internal guard: finished tasks are not resumed, awaiters not before their future is finished, no task state is built on a wrong coroutine state, no task finishes while its coroutine is not closed, no scheduled handle was executed, no assertion of a task fails, `_cancel` terminates. A call that raises changes nothing. |
| Reachability.StepAcyclic | aio/future/pure.py:415-431 | No step closes a cycle of waits, given that a coroutine does not yield a future that leads back to its task. |
| FutureRuns.QuiescentTasks | aio/future/pure.py:382-431 | With no live handle left, a task is finished, was never scheduled, or waits on an unfinished future. |
| Cancellation.CancelIsOneLeafChange | aio/future/pure.py:350-380 | `cancel_future` reaches the end of the chain of unfinished futures waited on. That one alone changes, to failed or to cancelling with the given cancellation; or the call raises and nothing changes, exactly when the end is finished, executing or already cancelling. |
| Cancellation.CancellationUnwindsChain | aio/future/pure.py:365-411 | Cancelling the first task of a chain of any length, in any run in which no coroutine of the chain catches a cancellation: once no live handle steps a task of the chain, every task and the future at its end have failed, with that cancellation or with one requested later. Whatever else the loop holds does not matter. |
| Cancellation.SameCancellationUnwinds | aio/future/pure.py:365-411 | If moreover no other cancellation succeeds on the chain, all fail with that same one. |
| Cancellation.RoundsUnwindChain | aio/future/pure.py:392-411 | In every such run the tasks of the chain are stepped at most as often as there are tasks left to fail, and exactly that often if and only if all have failed. |
| Cancellation.UnwindingCompletes | aio/future/pure.py:392-411 | And from every such state some run does complete the chain, with two labels for each task that is left. |
| Cancellation.UnwindingIsLive | aio/future/pure.py:173-198 | As long as a task of the chain has not failed, the loop holds a live handle that resumes one. |
| FutureRuns.CallbackFiresExactlyOnce | aio/future/pure.py:139-198 | A callback registered with an unfinished future and not removed survives every change of state, is not called before the future is finished, and is called exactly once by the time no live handle is left. |
| FutureRuns.RemovedCallbackNeverFires | aio/future/pure.py:148-163 | After it is removed, from a pending future or from a finished one, a callback is not called unless it is added again. |
| Outcomes.FutureHoldsWhatItWasGiven | aio/future/pure.py:179-198 | In every run from the start, a future holds a value or an exception if and only if some label of the run has finished it with just that: `set_result` or `set_exception`, the cancellation of a promise, or the return or exception of a task. |
| Outcomes.OutcomeStays | aio/future/pure.py:179-198 | From that label on it holds it, whatever happens. |
| Outcomes.AwaiterGetsTheOutcome | aio/future/pure.py:203-210 | A task that waits on a future when it is finished gets that value sent, or that exception raised, the next time it is resumed, whatever happens in between, unless it is cancelled; a StopIteration becomes a RuntimeError. |
| Outcomes.CancelledTaskIsThrownInto | aio/future/pure.py:433-448 | A cancelled task is resumed by throwing that cancellation into it, and no second cancellation reaches it before. |
| Outcomes.ScheduledTaskStarts | aio/future/pure.py:433-448 | A scheduled task that is not cancelled starts with the first send. |
| Outcomes.SetResultAnswers | aio/future/pure.py:36-56 | A promise answers Ok exactly when it has finished its future with the given outcome; else the error tells which of task, cancellation and finished future it was, and nothing has changed. |
| Outcomes.CallbackAnswers | aio/future/pure.py:139-163 | `add_callback` answers Ok exactly on an unfinished future and has then added the callback and no other; after `remove_callback` it is gone. |
| Outcomes.ScheduleAnswers | aio/future/pure.py:382-390 | Only a task that is newly created can be scheduled, and a live handle then makes its first step. |
| Outcomes.CreationAnswers | aio/future/pure.py:84-92 | A new promise is pending and can be finished; a new task can be scheduled. |
| Outcomes.YieldWaits | aio/future/pure.py:411-431 | A coroutine that yields a future leaves its task waiting on it, registered there for its next step. |
| Outcomes.CancelledHandleIsNotEntered | aio/loop/pure/impl.py:213-220 | A handle that is cancelled before the loop enters it is not entered in any run. |
| PureRuntime.Runtime.ScheduleCallbacks | aio/future/pure.py:173-177 | One new handle for each callback, in the order of iteration, and the map to those handles. |
| PureRuntime.Runtime.Cancel | aio/future/pure.py:350-380 | The recursion over waited-on futures has the effect of one call at the end of the chain. |
| PureRuntime.Runtime.Suspend | aio/future/pure.py:411-431 | `_step` after a yield: the old callback is taken back; a task that yields itself, or a finished future, gets the error; else the callback is registered and the task is running. |
| PureRuntime.Runtime.Do | aio/future/pure.py:36-452 | Every label has the state and the result of the machine, and so all that the rows above say of its labels; it keeps the invariant and trips no guard. |
| PureRuntime.Runtime.Drive | aio/future/pure.py:36-452 | Whole runs: final state and every result are those of the machine. |
| CSimulation.SimulationObserved | aio/future/cimpl.c:312-342 | Related states of the two implementations show the same state names, outcomes and number of live step handles. |
| CSimulation.SnapshotsAreExact | aio/future/pure.py:84-137 | A snapshot shows every future, and counts exactly the live handles that step a task. |
| CSimulation.OutcomeIsSeen | aio/future/cimpl.c:312-342 | A future is seen finished, and with an outcome, exactly when it holds that outcome. |
| CSimulation.NamesOfNew | aio/future/pure.py:297-319 | A new promise is seen running, a new task created, and scheduled once it is. |
| CSimulation.NameOfWaiting | aio/future/pure.py:307-319 | A task that has yielded is seen running. |
| CSimulation.NameOfCancelled | aio/future/pure.py:307-319 | A cancelled task is seen cancelling. |
| CRuntime.CanGo | aio/future/cimpl.c:866-917 | The bit masks admit exactly the coroutine states that the pure state classes expect. |
| CRuntime.Runtime.AddCallback | aio/future/cimpl.c:360-380 | Simulates the machine's step, with its result. |
| CRuntime.Runtime.RemoveCallback | aio/future/cimpl.c:390-426 | Simulates the machine's step on either variant of the union. |
| CRuntime.Runtime.ScheduleCallbacks | aio/future/cimpl.c:428-455 | One new handle for each callback and the map to those handles. |
| CRuntime.Runtime.SetFuture | aio/future/cimpl.c:457-503 | Retags the union to success or failed with its scheduled callbacks, so that it shows exactly the given outcome, or raises. |
| CRuntime.Runtime.SetTask | aio/future/cimpl.c:940-986 | Finishes a task whose coroutine is closed, so that it shows exactly the given outcome; else raises a guard without effect. |
| CRuntime.Runtime.SetCancellation | aio/future/cimpl.c:988-1009 | Simulates the move to cancelling, or raises exactly when the coroutine is neither suspended nor fresh. |
| CRuntime.Runtime.Cancel | aio/future/cimpl.c:1011-1077 | Simulates the recursive cancellation, with the same error. |
| CRuntime.Runtime.ScheduleFirstStep | aio/future/cimpl.c:1079-1099 | Simulates the first scheduling. |
| CRuntime.Runtime.Invoke | aio/future/cimpl.c:1112-1160 | Simulates the resumption of a coroutine; what is delivered to it is what the iterator of the C future makes of the outcome. |
| CRuntime.Runtime.Suspend | aio/future/cimpl.c:1161-1200 | Simulates the suspension and its errors; the old callback is not taken back, which nobody can observe. |
| CRuntime.Runtime.FinishTask | aio/future/cimpl.c:1112-1244 | Simulates the end of a coroutine. |
| CRuntime.Runtime.Drive | aio/future/cimpl.c:866-1244 | For any run: after each label the snapshot is the machine's, and the result is the machine's but for the deliveries of the C iterator and for the refusal of a task as a promise. |
| CSimulation.DeliveredAlikeExactly | aio/future/cimpl.c:633-651 | An await gives the same in both implementations if and only if the result is neither a tuple nor an instance of StopIteration, and the error no StopIteration. |
| CSimulation.TupleIsTornApart | aio/future/cimpl.c:649-649 | A result (7, 8) reaches the awaiting coroutine whole from the pure future, and as 7 from the C future. |
| CSimulation.UnpackedByC | aio/future/cimpl.c:633-651 | What the C future makes of every tuple, empty or not, and of every StopIteration, as result or as error, beside what the pure future gives. |
| CSimulation.DiffersExactly | aio/future/cimpl.c:633-651 | The two give different results at a label if and only if it is such a delivery, or sets the result of a task through a promise. |
| BothRuntimes.Compare | tests/test_future.py:89-107 | Both implementations driven by the same labels: equal snapshots after each label, and results that differ exactly at those labels. |
| Entry.RunLeavesTheLoopWithTheRootFinished | aio/loop/entry.py:24-50 | With no live handle left between two steps, the runner is stopped if and only if the root task is finished; once stopped, the root task is finished and `received_fut` is the root task. |
| Entry.Program.ReceiveResult | aio/loop/entry.py:24-27 | Records the future and stops the runner. |
| Entry.Program.Run | aio/loop/entry.py:43-50 | Makes the steps of the loop as long as the runner is not stopped or a live handle is left, looked at before each step; leaves at the first step boundary where neither holds, and then the result is the outcome of the root task. |
| Heap.Push | aio/loop/pure/scheduler.py:48-53 | `heappush` keeps heap order and adds exactly the entry; one that is not below its parent stays at the end. |
| Heap.Pop | aio/loop/pure/scheduler.py:62-71 | `heappop` returns the root, which is least, keeps heap order and takes out exactly that entry. |
| Heap.Heapify | aio/loop/pure/scheduler.py:35-37 | `heapify` establishes heap order on a permutation of the list. |
| StableQueue.StableSortIsStable | aio/loop/pure/scheduler.py:39-46 | The sort of the stable list keeps the order among items of one time. |
| StableQueue.StableSortSorts | aio/loop/pure/scheduler.py:62-72 | The sort of the stable list is a sorted permutation. |
| Scheduler.StableSortStrict | aio/loop/pure/scheduler.py:39-46 | With increasing ids the stable sort is the strict order by time and id that the heap uses. |
| Scheduler.PriorityQueue.constructor | aio/loop/pure/scheduler.py:27-37 | A valid queue that stands for the given lists. |
| Scheduler.PriorityQueue.Enqueue | aio/loop/pure/scheduler.py:48-53 | Appends to the ready list, or to the list of timers in enqueue order. |
| Scheduler.PriorityQueue.PopPrioritizedLow | aio/loop/pure/scheduler.py:62-72 | Returns exactly what is due, by time and among equal times in enqueue order, and leaves exactly the rest. |
| Scheduler.PriorityQueue.PopBelowPriority | aio/loop/pure/scheduler.py:55-57 | All ready items in enqueue order, then the due ones. |
| Scheduler.Scheduler.Create | aio/loop/pure/scheduler.py:80-87 | Fails exactly when a handle is in the wrong list; else holds exactly the given handles. |
| Scheduler.Scheduler.Enqueue | aio/loop/pure/scheduler.py:48-53 | A handle without a time goes to the end of the ready list, one with a time to the timers. |
| Scheduler.Scheduler.PopPending | aio/loop/pure/scheduler.py:89-92 | What is ready and what is due, in that order, without the cancelled handles, for any mix of enqueue, cancel and pop before. |
| Scheduler.Scheduler.ItemsNum | aio/loop/pure/scheduler.py:94-97 | The number of live handles, wherever the heap keeps them. |
| Scheduler.Scheduler.NextEvent | aio/loop/pure/scheduler.py:99-105 | None exactly when no live timer is left; else the time of a live timer, which is the least of all if and only if the first exposed live entry is earliest among the exposed ones. |
| Scheduler.NextEventIsLeastExactly | aio/loop/pure/scheduler.py:99-105 | The exact condition on the raw heap, before the call: of the live entries below cancelled ancestors only, the one of smallest index is earliest. |
| Scheduler.LiveRootIsNext | aio/loop/pure/scheduler.py:99-105 | In particular it is the least if the root is live. |
| Scheduler.NextEventCanOvershoot | aio/loop/pure/scheduler.py:48-105 | Three handles are enqueued and the first is cancelled: `next_event` answers 5 although a live timer is due at 2. |
| Scheduler.Scheduler.GetItems | aio/loop/pure/scheduler.py:59-60 | Exactly the handles in the scheduler, the timers in the heap's order. |
| LoopRuns.HandlesAreConserved | aio/loop/pure/impl.py:89-220 | Between two steps of any run every handle ever created is exactly once in the scheduler, among the invoked, or among the dropped; only cancelled ones are dropped; `executed` tells the invoked ones. |
| LoopRuns.CallSoonIsFifo | aio/loop/pure/impl.py:139-172 | Handles of `call_soon` are invoked in the order of their creation over the whole run, across early and late batches, and before those still waiting. |
| LoopRuns.CancelledIsNeverInvoked | aio/loop/pure/impl.py:213-220 | A handle cancelled before its turn, even when it is already in the batch, is not invoked in the rest of the batch or of the run. |
| LoopRuns.TimersAreNotEarly | aio/loop/pure/impl.py:92-94 | No timed handle is invoked before its time less the resolution of the clock. |
| LoopRuns.ReachableRuns | aio/loop/pure/impl.py:282-293 | Those three hold while the runner runs and while it does not: whatever the program does outside of `run_loop`, and wherever `run_loop` gets to, is reachable. |
| LoopRuns.StepLeavesOnlyLaterTimers | aio/loop/pure/impl.py:130-172 | After a step every handle in the scheduler is a timer beyond the time after `select` by more than the resolution, or was enqueued by a late callback. |
| LoopRuns.DueHandlesAreServed | aio/loop/pure/impl.py:89-172 | A handle that is ready, or due at the time after `select`, is invoked in that step or dropped as cancelled. |
| LoopRuns.PollsForeverOnlyWhenIdle | aio/loop/pure/impl.py:98-107 | `select` gets no timeout if and only if the scheduler holds no live handle at the start of the step. |
| LoopRuns.QuietStepDecreases | aio/loop/pure/impl.py:282-290 | If nothing is enqueued and `select` sleeps as long as asked, a step makes `items_num` strictly smaller, even if `next_event` overshoots. |
| LoopRuns.StoppedRunnerNeverHangs | aio/loop/pure/impl.py:98-107 | After `stop_loop`, in every later step that the runner makes, `select` gets a timeout. |
| LoopRuns.StoppedRunnerDrains | aio/loop/pure/impl.py:282-293 | So a stopped runner leaves its loop after at most as many steps as there were live handles. |
| LoopMoments.LifeMoments | aio/loop/pure/impl.py:89-293 | The life of a loop is the sequence of its moments: single actions, pops, calls, waits. Results about the middle of a step speak of these. |
| LoopTimes.CallLaterAnswers | aio/loop/pure/impl.py:249-271 | `call_later` makes a timer that lies the timeout ahead of the clock; with a timeout of zero the new handle is the last one ready; nothing else changes. |
| LoopTimes.TimersRunAfterTheirTimeout | aio/loop/pure/impl.py:249-271 | In every life of a loop: a handle made by `call_later(timeout)` when the clock shows t is not called before it shows t + timeout, to within the resolution. |
| LoopTimes.SelectWaitsForTheNextTimer | aio/loop/pure/impl.py:89-107 | Each step calls `select` once: with timeout 0 if a live handle is ready or due when the step begins; else up to the time of the live timer that `next_event` names; without a timeout if and only if no live handle is left. |
| LoopTimes.SelectDoesNotOversleep | aio/loop/pure/impl.py:98-107 | If that answer is the least live time, no live timer becomes due before `select` returns by itself. |
| LoopTimes.CallbackStops | aio/loop/pure/impl.py:292-293 | A callback clears the flag of the runner if it gets to a `stop_loop` before it raises, and leaves it alone otherwise. |
| LoopTimes.RoundStops | aio/loop/pure/impl.py:282-293 | After a step the flag is set if and only if it was, and neither the callbacks that were called, nor those of I/O and `select`, called `stop_loop`. |
| LoopTimes.FlagTellsWhetherStopped | aio/loop/pure/impl.py:282-293 | At any moment the flag is set if and only if `run_loop` was entered and `stop_loop` not called since. |
| LoopTimes.StopLoopLeadsOut | aio/loop/pure/impl.py:282-293 | From a step in which a callback calls `stop_loop`, at most as many quiet steps as live handles lead to where the condition of `run_loop` fails. |
| LoopTimes.RoundsAreNeeded | aio/loop/pure/impl.py:282-290 | Each step that `run_loop` makes is made because the flag was set or a live handle was left. |
| LoopOrder.StepCallsInOrder | aio/loop/pure/impl.py:139-172 | The early calls of a step, and its late ones, are in order: handles without a time as created, then timers by time, and timers of one time as created. |
| EventLoop.EventLoop.CallSoon | aio/loop/pure/impl.py:231-247 | A fresh handle without a time at the end of the ready list; nothing else changes. |
| EventLoop.EventLoop.CallLater | aio/loop/pure/impl.py:249-271 | A fresh handle whose time is the clock plus the timeout, last among the timers; a timeout of zero is `call_soon`. |
| EventLoop.EventLoop.InvokeHandle | aio/loop/pure/impl.py:213-220 | Skips a cancelled handle; else calls it and marks it executed, also when it raises. |
| EventLoop.EventLoop.WaitEvents | aio/loop/pure/impl.py:98-107 | The timeout is 0 with early callbacks, else the time left to the next event but not below 0, or none. |
| EventLoop.EventLoop.NextEvent | aio/loop/pure/scheduler.py:99-105 | The time of a live timer, which is the least exactly under the condition on the heap. |
| EventLoop.EventLoop.RunStep | aio/loop/pure/impl.py:89-180 | One step over objects has the effect of the machine's step, with an answer that `next_event` may give. |
| EventLoop.EventLoop.RunLoop | aio/loop/pure/impl.py:282-290 | Refuses to run twice; else makes machine steps as long as it is not stopped or a live handle is left, and leaves the loop exactly when neither holds. |
| EventLoop.EventLoop.StopLoop | aio/loop/pure/impl.py:292-293 | The flag is cleared and nothing else changes. |
| HandleTable.LabelGrows | aio/future/pure.py:139-431 | All that a label does to the table of handles is to add fresh handles and to set flags; no handle changes its target, no cancellation is taken back. |
| LoopOfFutures.ActionsExist | aio/future/pure.py:139-431 | So whatever a label does reaches the loop in calls of `call_soon` and `Handle.cancel`. |
| LoopOfFutures.NextHandleIsLive | aio/loop/pure/impl.py:213-220 | Each handle that the loop is about to invoke is one that the futures allow it to enter. |
| LoopOfFutures.LoopRunsAreRuns | aio/loop/pure/impl.py:89-220 | Any run of the event loop whose callbacks are the handles of futures, tasks and user code is a run of the futures; between two steps both hold the same handles with the same flags, entered in the same order. |
| LoopOfFutures.LifeIsReachable | aio/loop/pure/impl.py:89-293 | So from a fresh loop on, all results about reachable states, of the loop and of the futures, hold together. |
| Fairness.NoItemsNoLive | aio/loop/pure/scheduler.py:94-97 | `items_num` is 0 if and only if no live handle is left. |
| Fairness.SleepsOnlyOverWaitingTasks | aio/loop/pure/impl.py:98-107 | When `select` waits without a timeout, and when the runner leaves its loop, no task is left that could be stepped. |
| Fairness.RunnableTasksAreStepped | aio/loop/pure/impl.py:130-172 | Each step of the loop steps every task that could be stepped at its start, up to its next await or its end; unless a cancellation reaches the task in between, for the first time. |
| Fairness.CancelledChainFailsInTime | aio/future/pure.py:350-411 | A chain of n tasks cancelled between two steps has failed after 2n steps of the loop, or when the runner leaves it earlier, if no coroutine of the chain catches a cancellation; whatever else happens, further cancellations included. |
| Fairness.UndisturbedChainFailsInTime | aio/future/pure.py:350-411 | It has failed after n steps, all with that one cancellation, if no other succeeds on the chain. |
| Fairness.StagesUnwindAll | aio/future/pure.py:392-411 | The same from any point between two steps at which some of the chain is left. |
| ChannelProperties.RunConserves | aio/channel.py:71-157 | In every run, and every configuration: the elements at the start followed by those accepted, in order, are those delivered followed by the container. |
| ChannelProperties.StepKeepsInv | aio/channel.py:71-156 | Every operation keeps: container within capacity, a queued reader implies an empty container, a queued writer a full one, queues in order of arrival, blocked coroutines queued; and no assert fails. |
| ChannelRuns.AssertsHoldIffWellConfigured | aio/channel.py:61-66 | The asserts hold in every run if and only if the capacity is absent, or at least 1 and not below the number of initial elements. |
| ChannelRuns.BlockedForAReason | aio/channel.py:92-145 | A blocked reader means an empty container and no writer queued, a blocked writer a full one and no reader queued; neither exists once the channel is closed. |
| ChannelRuns.NoFinishedError | aio/channel.py:79-124 | With only blocked coroutines in the queues no get or put raises FutureFinishedError. |
| ChannelRuns.FinishedErrorOfGet | aio/channel.py:79-88 | A get raises it exactly when the container is not empty and the first queued writer is stale, and then only takes that entry out. |
| ChannelRuns.FinishedErrorOfPut | aio/channel.py:118-123 | A put raises it exactly when the channel is open and the first queued reader is stale, and then only takes that entry out. |
| ChannelRuns.StaleReaderOccurs | aio/channel.py:98-123 | It comes up: a reader waits, its task is cancelled, and before it resumes something is put. |
| ChannelRuns.StaleWriterOccurs | aio/channel.py:79-145 | It comes up for a get in the same way. |
| ChannelRuns.ServedInArrivalOrder | aio/channel.py:79-145 | Over any run readers are given elements in the order of their arrival, and writers room. |
| ChannelRuns.CloseLeavesNobodyHanging | aio/channel.py:147-156 | After `close`, in every run: nobody is blocked or gets blocked, every put raises Closed, the container only shrinks from the front. |
| ChannelRuns.ClosedGetsDrain | aio/channel.py:71-90 | A row of gets on a closed channel: an error for each writer still queued, the remaining elements in order, then Closed forever. |
| ChannelRuns.ServedReaderReturns | aio/channel.py:99-107 | A reader that was given an element returns it when it resumes, unless its task was cancelled in between. |
| ChannelRuns.ElementCanBeLost | aio/channel.py:98-107 | A run in which an accepted element is lost in that way. |
| ChannelWaits.GetAnswers | aio/channel.py:71-107 | A get gives the first element; without one it raises Closed on a closed channel, and on an open one Empty, or blocks at the end of the queue. |
| ChannelWaits.PutAnswers | aio/channel.py:109-145 | A put raises Closed on a closed channel; on a full one Overflowed, or it blocks at the end of the queue with its element; else it returns. |
| ChannelWaits.CloseAnswers | aio/channel.py:147-156 | `close` returns, ends every wait, leaves the container, and changes nothing the second time. |
| ChannelWaits.BlockedAnswers | aio/channel.py:92-145 | What a blocked get or put answers when it resumes, in any run: a put returns if and only if a get has let its element in, a get returns the element of the put that was handed to it, Closed if and only if the channel was closed meanwhile, Cancelled if and only if the wait was cancelled. |
| ChannelWaits.BlockedPutIsAccepted | aio/channel.py:127-145 | The element let in is the one that the blocked put was called with. |
| Channel.Queue.Close | aio/channel.py:147-156 | The two loops fail exactly the queued promises that are pending and leave all else. |
| Channel.Queue.Drive | aio/channel.py:58-157 | Whole runs: final state and every result are those of the machine. |

## Left out

- Sockets, selectors, the self-pipe with its wake-up of a polling selector, and networking: input and output only; `select` is a script of the environment.
- Threads, executors, signal handlers, asynchronous generators, logging and elapsed times: foreign calls and diagnostics.
- `gather`, `shield`, `sleep` and the guard of child tasks: consequences of the task results, or without a property that holds.
- Exceptions that are not `Exception` or `Cancelled`, futures of another loop, and objects that are no futures: no label yields them. An await on a finished future yields nothing and is no label.
- `exc_retrieved`, reference counts, context variables, labels, `repr`, tracebacks, and the coercion of the argument of a cancellation: not modelled; a label carries the exception itself.
- Methods of `PureRuntime` and `Channel` without a row follow their operation of the machine statement by statement; the rows of `Do` and `Drive` cover them.
- PureRuntime.Runtime.Suspend: has no error for a future of another loop, because there is one loop.
- CRuntime.Runtime.Suspend: has no error for a future of another loop or for an object that is no future.
- CRuntime.Runtime.Drive: the C runtime is driven by the labels of the machine. After a delivery that differs a coroutine may go on differently, which is then another list of labels.
- BothRuntimes.Compare: both get the same labels, as above.
- Entry.Program.Run: the steps of the loop are lists of labels given to it; the signal handler of `run` is not part of them.
- LoopOfFutures.LoopRunsAreRuns: puts the two machines together, not the classes `PureRuntime.Runtime` and `EventLoop.EventLoop`; each of these is proved against its machine. A callback that raises is one that ends there.
- Handles in `PureRuntime` and `CRuntime`, and promises in `Channel`, are entries of a table with their index as identity, not objects; aliasing of handles is modelled in `EventLoop` only.
- EventLoop.EventLoop.RunLoop: the loop and its runner are one object, and the run is as long as the list of surroundings it is given; a run that never ends is covered by its finite prefixes.
- LoopRuns.StoppedRunnerDrains: needs that the callbacks enqueue nothing more; otherwise a stopped runner may run forever.
- Floating-point rounding of times and wall-clock behaviour: time is `real`.
- The asynchronous iterator of the channel and its context manager: one line each over `get` and `close`.
