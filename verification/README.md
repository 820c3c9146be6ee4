# Proofs about the Hermes Concurrency Engine

The Hermes Concurrency Engine is a C++20 coroutine runtime. Its core is a set of small
objects, each guarded by a lock, that hand coroutine handles and values from one thread to
another. This project models those objects in Dafny and proves what they promise over
every interleaving, together with the memory layer below them and two self-contained
algorithms of the repository.

## How the model reads

Each object with mutable state appears twice. A datatype holds its state, and functions on
it give one locked section of the source each (`Step`, `RunLocked`, `Perform` and so on). A
class holds the fields of the source and its methods do the work in place; the contract of
each method ties the new fields to the function. What the source promises is then proved
about the functions, for every sequence of calls by any number of threads: `After(..)` is
the state after a run, and a run is an arbitrary sequence of actions. Histories (values
accepted, values delivered, handles created, timers started) are kept beside the state so
that conservation and order can be stated. For each operation a law (named `..Answers`,
`..TakesEffect`, `..Arrives` and the like) says from the history alone what a call answers and
achieves.

| file | what it models |
|---|---|
| `ChannelCore`, `BufferedChannel`, `UnbufferedChannel`, `UnlimitedChannel` | the three channels, their parked awaiters and their closing |
| `CircularBuffer` | the ring that the buffered channel and the blocking service store in |
| `Scope` | a scope's root coroutine, which joins everything sent to it |
| `Handshake` | the await/resume race of one awaiter and one resumer, step by step |
| `Scheduler`, `SchedulerSystem`, `SchedulerRuns`, `SchedulerLaws` | one scheduler's run loop; any number of schedulers and awaitables passing handles; fairness, sleep and halt over their runs; where handles arrive and what each operation achieves |
| `Timer`, `TimerLaws` | the timer service, and the default early wake-up algorithm; what its calls and its thread's passes achieve |
| `List`, `ListRuns`, `SizeClass`, `MemoryCache`, `Slab` | the memory layer |
| `SynchronizedList`, `Blocking` | a blocking worker's queue and the reuse of workers |
| `Cleanup` | the cleanup handlers of a promise |
| `Threadpool` | the search for the least loaded worker |
| `Matching` | maximum bipartite matching in the vendored googlemock |

Lock sections are atomic, the clock is monotone (a reading never goes back), and waits on
condition variables may end spuriously. Clock readings, the answers of the system
allocator, the workloads seen by a search and what a coroutine does in its turn are
parameters of the actions, so that the theorems hold for all of them.

## Where the code does not do what it seems meant to do

The model follows the code. Each of these has a lemma or a method that shows it on a concrete
input, and a theorem or contract that says exactly when the code does what it should.

- `try_recv` of the unbuffered channel resumes the first parked sender and does not remove it.
  Whatever resumes that sender next may touch an awaitable that its coroutine has already
  destroyed, so a run that gets there is undefined (`SenderResumedTwice`). A run is defined if
  and only if no receive, `try_recv` or close follows a `try_recv` that met a parked sender
  (`DefinedExactlyWhen`), and in every defined run the channel is a rendezvous
  (`RunIsRendezvous`).
- An awaited send on a closed buffered channel answers "not ready" without parking, so its
  awaiter suspends and nothing can resume it (`StrandedAfterClose`). That happens to exactly
  the sends after the close (`StrandedExactlyAfterClose`).
- `try_send` of the buffered channel resumes a parked receiver with the buffer where a
  transfer is expected, which has no defined effect (`TrySendToParkedReceiver`). A run is
  defined if and only if no `try_send` that reaches the buffer meets a parked receiver
  (`DefinedExactlyWhen`).
- `add` of a scope tests whether the channel is closed, and sends after releasing the lock. A
  close in between loses the awaitable although `add` returns true (`PromiseLost`), and only
  that does (`LostExactlyWhenLate`).
- `cancel` of the timer service never advances its iterator: with a valid sid and the service
  running it returns only if the timer is the first one or none is pending, and otherwise
  spins (`CancelOfSecondSpins`). The busy-wait loop reads the first timer without a test for
  emptiness (`PollFindsNothing`); only a cancel of the one pending timer can empty the list
  meanwhile (`OnlyCancelEmptiesBusyWait`). A run is free of both defects if and only if no
  step meets one of the two conditions (`WorksExactlyWhen`).
- A cleanup handler that installs another one while it is called makes the loop remove the
  wrong node: the new handler is thrown away uncalled and the old one called again
  (`InstallsOnce`, `LastInstalledIsLost`). Every handler is called exactly once and in order if
  and only if none of these calls installs anything (`OnceEachExactlyWhen`). Cleanup comes to
  an end if and only if the calls catch up with the handlers listed (`EndsExactlyWhen`): it
  does when installing stops at some call, and does not when a listed handler installs at
  every call.
- Copy assignment of a list appends (`CopyOntoNonempty`); the two lists are then equal if and
  only if the target was empty (`CopyAssign`).
- Moving a slab allocator exchanges everything but the limits, so the target can hold more
  blocks than its limit (`MoveCanExceedLimit`), exactly when the source holds more than that
  (`Move`); it still never loses or doubles a block.
- The flag that tells a slab allocator where a block came from lies behind the room for one
  value. The values of an array lie over it, so an array from the system can be taken for a
  block of a slab when it is given back (`ArrayEntersFreeList`). It stays out of the free list
  if and only if its values end before the flag or left a zero there (`Deallocate`); one value
  alone always does (`OneValueClearsFlag`). The counters are exact if and only if no such
  stray entered (`BlocksAreConserved`).
- The comment on `halt_` promises that queued coroutines complete; `run` stops instead
  (`HaltLeavesHandle`). Nothing is left behind if and only if nothing was queued at the halt
  and the batch then under way pushes nothing, before the halt or after
  (`HaltLeavesNothingExactlyWhen`).

## Model

| member | source | states |
|---|---|---|
| RingBuffer.CircularBuffer.constructor | inc/circular_buffer.hpp:60-65 | a new ring is empty and has the capacity asked for |
| RingBuffer.CircularBuffer.Front | inc/circular_buffer.hpp:137-140 | the front is the oldest stored value |
| RingBuffer.CircularBuffer.Emplace | inc/circular_buffer.hpp:146-154 | a value put into a ring that is not full goes behind all others, whatever way the indices wrap |
| RingBuffer.CircularBuffer.Pop | inc/circular_buffer.hpp:169-176 | removal drops exactly the oldest value |
| RingBuffer.CircularBuffer.Swap | inc/circular_buffer.hpp:180-186 | a move exchanges the contents of two rings |
| RingBuffer.NextSlot | inc/circular_buffer.hpp:151-175 | the modular index step is one step round the ring |
| BufferedChannel.StepKeepsShape | inc/channel.hpp:454-710 | parked senders imply a full and open channel, parked receivers an empty and open one; a step is undefined exactly for a try_send that meets a parked receiver, and strands exactly a send after close |
| BufferedChannel.PutKeepsFifo | inc/channel.hpp:613-634 | a send, awaited or not, keeps: accepted == delivered ++ ring ++ parked ++ dropped, and every parked party in exactly one place |
| BufferedChannel.TakeKeepsFifo | inc/channel.hpp:569-595 | a receive, awaited or not, keeps the same equation, also when it lets a parked sender in |
| BufferedChannel.StepKeepsFifo | inc/channel.hpp:515-703 | so does every operation, close included |
| BufferedChannel.RunIsFifo | inc/channel.hpp:454-710 | after every defined run by any threads the channel is a bounded FIFO and conserves values and awaiters |
| BufferedChannel.DeliveredIsPrefixOfAccepted | inc/channel.hpp:565-595 | values are delivered in the order in which sends were accepted; after close every parked party has been resumed exactly once |
| BufferedChannel.DefinedExactlyWhen | inc/channel.hpp:683-703 | a run has a defined outcome if and only if no try_send with room meets a parked receiver |
| BufferedChannel.TrySendToParkedReceiver | inc/channel.hpp:693-696 | one receive followed by one try_send has no defined outcome |
| BufferedChannel.StepStrands | inc/channel.hpp:613-616 | exactly an awaited send on a closed channel strands its awaiter |
| BufferedChannel.StrandedExactlyAfterClose | inc/channel.hpp:613-616 | no awaiter of a run is stranded if and only if no send follows a close |
| BufferedChannel.StrandedAfterClose | inc/channel.hpp:613-616 | a send on a closed channel leaves its awaiter suspended and unreferenced |
| BufferedChannel.ReceiveAnswers | inc/channel.hpp:653-676 | in every defined run a receive returns the first value confirmed and not yet delivered whenever there is one, open or closed; without one it fails after a close and parks before |
| BufferedChannel.TryReceiveAnswers | inc/channel.hpp:569-595 | try_recv returns that value too; without one it answers closed exactly after a close |
| BufferedChannel.SendAnswers | inc/channel.hpp:613-634 | a send on an open channel succeeds exactly when fewer values are ready than the capacity, and parks otherwise |
| BufferedChannel.TrySendAnswers | inc/channel.hpp:683-703 | a try_send with nobody waiting to receive succeeds exactly when open with room, fails exactly when open and full |
| BufferedChannel.CloseAnswers | inc/channel.hpp:515-533 | the first close refuses everybody who waits, in order, and keeps every ready value; a later one does nothing |
| BufferedChannel.TakeAnswers | inc/channel.hpp:653-676 | taking a value lets the first waiting sender in |
| BufferedChannel.PutAnswers | inc/channel.hpp:613-634 | a value put goes to the first waiting receiver, or behind the ready ones |
| BufferedChannel.ClosedChannelDrains | inc/channel.hpp:653-676 | after a close the k-th receive returns the k-th ready value, and only then receives fail |
| BufferedChannel.BufferedChannel.constructor | inc/channel.hpp:454-470 | a new channel is open and empty |
| BufferedChannel.BufferedChannel.OnReadySend | inc/channel.hpp:613-634 | the send section over the real ring has exactly the reply, wake-ups and new state of the channel's send step |
| BufferedChannel.BufferedChannel.TakeFront | inc/channel.hpp:584-590 | taking the front of the ring lets the first parked sender store its value |
| BufferedChannel.BufferedChannel.OnReadyRecv | inc/channel.hpp:653-676 | the receive section refines the receive step |
| BufferedChannel.BufferedChannel.TrySend_ | inc/channel.hpp:683-703 | the try_send section refines its step, and says when it has no defined effect |
| BufferedChannel.BufferedChannel.TryRecv_ | inc/channel.hpp:569-595 | the try_recv section refines its step |
| BufferedChannel.BufferedChannel.CloseChannel | inc/channel.hpp:515-533 | the two draining loops refuse every parked sender, then every parked receiver, in order and once |
| UnbufferedChannel.StepKeepsShape | inc/channel.hpp:292-444 | senders and receivers are never both parked and nobody is parked after close; a step is undefined exactly when it resumes a sender that a try_recv resumed before |
| UnbufferedChannel.StepKeepsRendezvous | inc/channel.hpp:292-444 | every defined step keeps: confirmed == delivered, accepted == confirmed ++ parked and not yet resumed ++ dropped, and every parked party in exactly one place |
| UnbufferedChannel.RunIsRendezvous | inc/channel.hpp:240-450 | the same after every defined run by any threads |
| UnbufferedChannel.SurplusWakeUps | inc/channel.hpp:341-354 | in a defined run, wake-ups and parked senders exceed the senders that parked by the number of try_recvs that met one |
| UnbufferedChannel.StaleOnceLingered | inc/channel.hpp:341-354 | a defined run has at most one such try_recv, and from then on the first parked sender is one that was resumed |
| UnbufferedChannel.DefinedExactlyWhen | inc/channel.hpp:341-354 | a run is defined if and only if no receive, try_recv or close follows such a try_recv |
| UnbufferedChannel.SendersOnceExactlyWhen | inc/channel.hpp:348-352 | in a defined run, every sender resumed has left the queue if and only if no try_recv met a parked sender |
| UnbufferedChannel.SendsPairWithReceives | inc/channel.hpp:180-225 | in a defined run the k-th successful receive has the value of the k-th accepted send, which reported success; after close every parked party has been resumed once |
| UnbufferedChannel.SenderResumedTwice | inc/channel.hpp:348-352 | a send, a try_recv and a receive resume the sender twice, with no defined outcome |
| UnbufferedChannel.TrySendAnswers | inc/channel.hpp:430-444 | in every defined run a try_send on an open channel hands its value to the first waiting receiver; it fails exactly when open with nobody waiting, and answers closed exactly after a close |
| UnbufferedChannel.SendAnswers | inc/channel.hpp:374-389 | a send does the same, but waits when nobody waits to receive |
| UnbufferedChannel.ReceiveAnswers | inc/channel.hpp:408-423 | a receive with a defined outcome takes the value of the first waiting sender and resumes it with success; without one it fails after a close and waits before |
| UnbufferedChannel.TryReceiveAnswers | inc/channel.hpp:341-354 | so does a try_recv, which fails instead of waiting |
| UnbufferedChannel.CloseAnswers | inc/channel.hpp:292-309 | a close with a defined outcome refuses everybody who waits, in order |
| UnbufferedChannel.TryRecvLeavesSender | inc/channel.hpp:348-352 | after a send and a try_recv the sender has been resumed and is still parked |
| UnbufferedChannel.UnbufferedChannel.constructor | inc/channel.hpp:240-262 | a new channel is open with nobody parked |
| UnbufferedChannel.UnbufferedChannel.OnReadySend | inc/channel.hpp:374-389 | the send section refines the send step |
| UnbufferedChannel.UnbufferedChannel.OnReadyRecv | inc/channel.hpp:408-423 | the receive section refines the receive step |
| UnbufferedChannel.UnbufferedChannel.TrySend_ | inc/channel.hpp:430-444 | the try_send section refines its step |
| UnbufferedChannel.UnbufferedChannel.TryRecv_ | inc/channel.hpp:341-354 | the try_recv section refines its step and leaves the queues as they were |
| UnbufferedChannel.UnbufferedChannel.CloseChannel | inc/channel.hpp:292-309 | closing refuses all parked senders, then all parked receivers, in order and once |
| UnlimitedChannel.PutKeepsFifo | inc/channel.hpp:860-877 | a send keeps: accepted == delivered ++ queue, parked receivers only on an empty and open channel |
| UnlimitedChannel.StepKeepsFifo | inc/channel.hpp:768-939 | so does every operation |
| UnlimitedChannel.RunIsFifo | inc/channel.hpp:714-947 | after every run the channel is a FIFO and each parked receiver is in exactly one place |
| UnlimitedChannel.ClosedChannelDrains | inc/channel.hpp:896-913 | receives after close return all remaining values in order, and only then fail |
| UnlimitedChannel.SendAnswers | inc/channel.hpp:860-877 | in every run a send succeeds exactly while the channel is open, and feeds the first waiting receiver |
| UnlimitedChannel.TrySendAnswers | inc/channel.hpp:920-939 | so does a try_send |
| UnlimitedChannel.ReceiveAnswers | inc/channel.hpp:896-913 | a receive returns the first value sent and not yet received whenever there is one; without one it fails after a close and waits before |
| UnlimitedChannel.TryReceiveAnswers | inc/channel.hpp:821-842 | try_recv returns that value too; without one it answers closed exactly after a close |
| UnlimitedChannel.CloseAnswers | inc/channel.hpp:768-782 | a close refuses every waiting receiver, in order, and keeps the ready values |
| UnlimitedChannel.UnlimitedChannel.Feed | inc/channel.hpp:869-873 | the first value goes to the first parked receiver |
| UnlimitedChannel.UnlimitedChannel.OnReadySend | inc/channel.hpp:860-877 | the send section refines the send step |
| UnlimitedChannel.UnlimitedChannel.OnReadyRecv | inc/channel.hpp:896-913 | the receive section refines the receive step |
| UnlimitedChannel.UnlimitedChannel.TrySend_ | inc/channel.hpp:920-939 | the try_send section refines its step |
| UnlimitedChannel.UnlimitedChannel.TryRecv_ | inc/channel.hpp:821-842 | the try_recv section refines its step |
| UnlimitedChannel.UnlimitedChannel.CloseChannel | inc/channel.hpp:768-782 | closing refuses the parked receivers in order and keeps the queue |
| ChannelCore.RecordClose | inc/channel.hpp:515-533 | closing drops the values of exactly the parked senders and resumes every parked party once |
| ChannelCore.WakesStrandNobody | inc/channel.hpp:180-225 | resuming parked parties never strands one |
| Scope.StepKeepsInv | inc/scope.hpp:98-150 | every step of an add, of the root coroutine or of a close keeps: accepted == joined ++ in the channel ++ being joined, and promised == accepted, pending and lost together |
| Scope.RunKeepsInv | inc/scope.hpp:98-150 | the same after every run |
| Scope.FinishedRootJoinedAll | inc/scope.hpp:141-150 | when the root coroutine has finished it has awaited every accepted awaitable once, in order; what add promised is these, those still to be sent and the lost ones, so all were awaited if and only if there are no others |
| Scope.LostExactlyWhenLate | inc/scope.hpp:98-136 | a promised awaitable is lost if and only if its send came after a close that its add did not see |
| Scope.PromiseLost | inc/scope.hpp:98-136 | an add overtaken by a close returns true and its awaitable is never joined |
| Scope.ClosedExactlyWhen | inc/scope.hpp:115-123 | the scope is closed if and only if await() was called or the destructor has begun |
| Scope.AddAnswers | inc/scope.hpp:98-107 | add() promises all its awaitables if the scope is not closed, and nothing otherwise |
| Scope.SendAnswers | inc/scope.hpp:130-136 | a send is accepted, and taken up at once by a waiting root coroutine, exactly if the scope is still open; otherwise it is lost |
| Scope.RootAnswers | inc/scope.hpp:141-150 | each turn of the root joins what it awaits, or goes on to the first accepted awaitable not joined yet; without one it ends if closed and waits if not |
| Scope.CloseAnswers | inc/scope.hpp:115-123 | closing ends a waiting root coroutine and keeps all that was accepted |
| Scope.RootFinishesExactlyWhen | inc/scope.hpp:141-150 | once closed the root coroutine ends after exactly a known number of its turns, whatever happens meanwhile, having joined all that was accepted |
| Handshake.AwaiterKeepsInv | inc/coroutine.hpp:742-802 | each atomic step of the awaiter keeps the invariant: the lock is held exactly by who is in a critical section, the handle has one owner, a blocked thread can be found or finds its flag |
| Handshake.ResumerKeepsInv | inc/coroutine.hpp:814-851 | each atomic step of the resumer keeps it, for all three resume policies |
| Handshake.SpuriousKeepsInv | inc/coroutine.hpp:492-498 | so does a spurious wake-up |
| Handshake.ReachableInv | inc/coroutine.hpp:742-851 | the invariant holds after any interleaving, for both await policies and both kinds of awaiter |
| Handshake.OutcomeWhenBothDone | inc/coroutine.hpp:742-851 | once both have finished, the awaiter has the resumer's result, it completed at once or was woken exactly once, the lock is free, and the flag, the thread pointer and the handle are clear |
| Handshake.WokenAtMostOnce | inc/coroutine.hpp:826-844 | no handle is scheduled twice and no thread comes back twice, at any time |
| Handshake.NoEarlyReturn | inc/scheduler.hpp:181-192 | the awaiter never returns before the result is set |
| Handshake.NeverStuck | inc/coroutine.hpp:742-851 | until both are done one of them can move: no wake-up is lost and there is no deadlock |
| Handshake.StepsAreBounded | inc/coroutine.hpp:742-851 | every effective step uses up rank, only spurious wake-ups give any back |
| Handshake.HandshakeTerminates | inc/coroutine.hpp:742-851 | a handshake takes at most 44 steps, and two more for each spurious wake-up |
| Handshake.AwaitableInterface.constructor | inc/coroutine.hpp:930-940 | a new awaitable holds its lock exactly under the adopt policy |
| Handshake.AwaitableInterface.AwaitReady | inc/coroutine.hpp:742-761 | await_ready() performs the awaiter's first steps and returns true exactly when the flag was set, unlocked |
| Handshake.AwaitableInterface.AwaitSuspendCoroutine | inc/coroutine.hpp:764-802 | the awaitable takes the handle before it unlocks |
| Handshake.AwaitableInterface.AwaitSuspendThread | inc/coroutine.hpp:789-795 | the thread is recorded before it waits and releases the lock |
| Handshake.AwaitableInterface.Reacquire | inc/coroutine.hpp:492-498 | a woken thread returns exactly if its flag was set, and clears it |
| Handshake.AwaitableInterface.ResumeCoroutine | inc/coroutine.hpp:826-836 | the handle is unset, then the lock released unless no_lock, then the handle scheduled once |
| Handshake.AwaitableInterface.ResumeThread | inc/coroutine.hpp:838-844 | the thread's flag is set under the lock, and the thread notified |
| Handshake.AwaitableInterface.UnlockAndNotify | inc/coroutine.hpp:481-486 | with a lock of its own the resumer unlocks before it notifies |
| Handshake.AwaitableInterface.NotifyAndUnlock | inc/coroutine.hpp:473-477 | under no_lock it notifies, and its caller unlocks last |
| Handshake.AwaitableInterface.ResumeNobody | inc/coroutine.hpp:845-849 | with nobody suspended it only unlocks |
| Handshake.AwaitableInterface.OnResume | inc/scheduler.hpp:183-192 | the result and the flag are set together, under the lock |
| Handshake.AwaitableInterface.Resume | inc/coroutine.hpp:814-851 | resume() without interruption is all the resumer's steps: it ends with the lock free and the result set |
| Scheduler.OperationsKeepInv | inc/scheduler.hpp:922-994 | suspend, resume, halt and both forms of schedule keep the invariant of the waiting flags and of the batch |
| Scheduler.RunLockedKeepsInv | inc/scheduler.hpp:1096-1181 | so does every locked section of run() |
| Scheduler.TakeNextKeepsInv | inc/scheduler.hpp:1145-1155 | so does the next turn of a batch, which always finds a handle |
| Scheduler.OutcomesKeepInv | inc/scheduler.hpp:1155-1164 | so does whatever a resumed coroutine does: yield, end or be taken by an awaitable |
| Scheduler.BatchIsFair | inc/scheduler.hpp:1122-1171 | a batch resumes the handles present at the swap, each once and in queue order; afterwards the queue is the remote arrivals followed by local pushes and yields |
| Scheduler.QueuedRunsInNextBatch | inc/scheduler.hpp:1115-1171 | the next batch is exactly the remote arrivals followed by the local pushes and yields of this one; the run thread waits if there are none |
| Scheduler.OneMoreTurn | inc/scheduler.hpp:1145-1164 | after n turns of a batch the local queue is the rest of the batch followed by what the turns pushed |
| Scheduler.SchedulerObject.constructor | inc/scheduler.hpp:1003-1007 | a new scheduler has empty queues and its flags down |
| Scheduler.SchedulerObject.ResumeNotify_ | inc/scheduler.hpp:1010-1017 | notifies exactly if the flag is up, and takes it down |
| Scheduler.SchedulerObject.CoroutinesNotify_ | inc/scheduler.hpp:1023-1030 | the same for the other condition variable |
| Scheduler.SchedulerObject.Schedule_ | inc/scheduler.hpp:922-940 | a push by the run thread goes to the local queue; any other to the main queue with a notification, refused exactly when halted |
| Scheduler.SchedulerObject.Suspend_ | inc/scheduler.hpp:948-958 | suspends unless halted, and wakes a run thread that waits for work |
| Scheduler.SchedulerObject.Resume_ | inc/scheduler.hpp:963-970 | resumes exactly a suspended scheduler |
| Scheduler.SchedulerObject.Halt_ | inc/scheduler.hpp:981-994 | halts once, waking the run thread wherever it waits |
| Scheduler.SchedulerObject.Run | inc/scheduler.hpp:1096-1181 | from any entry under the lock the two loops reach their next unlocked point as one step of the model |
| Scheduler.SchedulerObject.EvaluateBatch | inc/scheduler.hpp:1133-1165 | the batch loop resumes exactly the handles of the local queue, in order, and destroys those that ended |
| Scheduler.SchedulerObject.BeginTurn | inc/scheduler.hpp:1147-1155 | the next handle is taken and the one left in the slot destroyed |
| Scheduler.SchedulerObject.EndTurn | inc/scheduler.hpp:1157-1164 | a handle still held and not done goes to the back of the local queue |
| SchedulerRuns.StepKeepsWaiting | inc/scheduler.hpp:1115-1171 | no action of the system but being taken removes a handle from a scheduler's queues; the end of a batch puts it in the next one |
| SchedulerRuns.DueRunsInThisBatch | inc/scheduler.hpp:1115-1165 | in every run, a handle of the batch under way, or queued while none is, is resumed before that scheduler ends a batch |
| SchedulerRuns.QueuedRunsWithinTwoBatches | inc/scheduler.hpp:1115-1171 | in every run, a handle in either queue of a scheduler has been resumed by the time that scheduler has ended two batches, whatever arrives meanwhile |
| SchedulerRuns.NeverSleepsThroughWork | inc/scheduler.hpp:1096-1181 | in every run, a run thread parked without a pending notification has its flag up and an empty queue while executing, or is suspended; never when halted |
| SchedulerRuns.HaltedStaysHalted | inc/scheduler.hpp:981-994 | in every run a halted scheduler stays halted, an exited one exited, and it gets nothing but what its own last batch pushes |
| SchedulerRuns.HaltedStep | inc/scheduler.hpp:922-994 | the same for one action of the system |
| SchedulerRuns.HaltLeavesNothingExactlyWhen | inc/scheduler.hpp:972-994 | run() of a halted scheduler leaves no handle behind if and only if nothing was queued at the halt and its batch had pushed and then pushes nothing |
| SchedulerRuns.HaltLeavesHandle | inc/scheduler.hpp:1094-1096 | a handle scheduled before the halt of an idle scheduler is left in its queue |
| SchedulerLaws.LandingArrives | inc/scheduler.hpp:922-940 | in every run, a schedule_() of a handle on its way puts it at the back of the queue of the scheduler it was sent to, of the local one if that is where it started, or is refused by that scheduler if it is halted; no other scheduler has it |
| SchedulerLaws.OnItsWay | inc/scheduler.hpp:922-940 | until it lands a handle on its way stays on its way, to the same scheduler |
| SchedulerLaws.MigrantArrives | inc/scheduler.hpp:417-421 | a migrating coroutine arrives at the scheduler it migrates to |
| SchedulerLaws.SpawnedArrives | inc/scheduler.hpp:867-887 | a new coroutine arrives at the scheduler it was scheduled on |
| SchedulerLaws.AwaiterSetsOut | inc/scheduler.hpp:364-382 | a coroutine that awaited on a scheduler sets out for that one when it is resumed, whoever resumes it |
| SchedulerLaws.AwaiterReturns | inc/scheduler.hpp:364-382 | and arrives there |
| SchedulerLaws.YieldGoesToTheBack | inc/scheduler.hpp:1158-1162 | a coroutine that yields is last in its scheduler's local queue |
| SchedulerLaws.EndedIsDestroyed | inc/scheduler.hpp:1149-1165 | the handle of a coroutine that ended is destroyed when its scheduler takes the next handle or ends the batch |
| SchedulerLaws.BatchIsBounded | inc/scheduler.hpp:1145-1165 | until its batch ends a run thread takes no more turns than the batch has handles, three steps for each, whatever is scheduled meanwhile |
| SchedulerLaws.BatchCanGoOn | inc/scheduler.hpp:1145-1171 | a run thread in its batch can always deliver the handle it took, take its next turn, or end the batch |
| SchedulerLaws.ResumeTakesEffect | inc/scheduler.hpp:963-970 | in every run, after resume a scheduler is not suspended; one that was executes, and its run thread, if parked on either condition, has a notification and may go on |
| SchedulerLaws.SuspendTakesEffect | inc/scheduler.hpp:948-958 | after suspend it is suspended unless halted, and its run thread does not wait for work un-notified |
| SchedulerLaws.HaltTakesEffect | inc/scheduler.hpp:981-994 | after halt it is halted from whatever status, and nobody is parked un-notified |
| SchedulerLaws.StartTakesTheQueue | inc/scheduler.hpp:1096-1181 | a run thread that begins or goes on takes the whole queue as its batch while executing, waits with its flag up with nothing queued or when suspended, and exits when halted |
| SchedulerLaws.SuspendedRunsNothing | inc/scheduler.hpp:1096-1104 | a suspended scheduler that has ended its batch resumes nothing and keeps its queue until it is resumed |
| SchedulerSystem.DeliverAdds | inc/scheduler.hpp:922-940 | delivering a handle puts it in exactly one more place: a queue, or the refused ones |
| SchedulerSystem.OwnStepHolds | inc/scheduler.hpp:1115-1171 | no step of a scheduler's own thread makes or loses a handle, except that the slot gives one up |
| SchedulerSystem.MigrateKeepsPlaces | inc/scheduler.hpp:417-421 | a migrating handle leaves its scheduler and is on its way to the other |
| SchedulerSystem.LandKeepsPlaces | inc/scheduler.hpp:922-940 | schedule_() of a handle on its way moves it to a queue, or to the refused ones |
| SchedulerSystem.WakeKeepsPlaces | inc/coroutine.hpp:826-836 | a resumed awaitable gives its handle up under the lock, and the handle is on its way until it is scheduled |
| SchedulerSystem.SpawnKeepsPlaces | inc/scheduler.hpp:867-887 | a new handle is in one place, on its way to its scheduler |
| SchedulerSystem.StepKeepsPlaces | inc/scheduler.hpp:364-421 | every action of the system conserves the places of every handle |
| SchedulerSystem.StepKeepsOwnership | inc/scheduler.hpp:922-940 | every action keeps exclusive ownership |
| SchedulerSystem.StepKeepsInv | inc/scheduler.hpp:922-1181 | every action keeps each scheduler's invariant, and a run thread that delivers a handle is in its batch |
| SchedulerSystem.OwnershipInEveryRun | inc/scheduler.hpp:1115-1171 | in every run of any number of schedulers and awaitables each handle ever created is in exactly one place: a slot, a queue, an awaitable, on its way, refused or destroyed |
| SchedulerSystem.NeverRunByTwo | inc/scheduler.hpp:1147-1164 | in every run no handle is with two schedulers, running or queued |
| SchedulerSystem.RunningIsNotQueued | inc/scheduler.hpp:1147-1164 | in every run no scheduler has the handle it runs in either of its queues, nor any handle twice in them |
| SchedulerSystem.LossesAreAccountedFor | inc/scheduler.hpp:922-935 | a handle is destroyed only after its coroutine ended, and refused only by a scheduler that is halted |
| SchedulerSystem.StepKeepsEnded | inc/scheduler.hpp:1149-1165 | each step keeps: what is destroyed, or idle in a slot, has ended |
| SchedulerSystem.StepKeepsRejection | inc/scheduler.hpp:933-935 | each step keeps: whoever refused a handle is halted |
| SchedulerSystem.HaltedStays | inc/scheduler.hpp:948-994 | no action brings a halted scheduler back |
| TimerService.InsertKeepsSorted | inc/timer.hpp:401-404 | inserting the newest timer keeps the order by timeout, ties by start |
| TimerService.PushAndSort | inc/timer.hpp:401-404 | pushing a timer on a sorted list and sorting it stably is inserting it behind its ties |
| TimerService.ExpiringIsExact | inc/timer.hpp:457-469 | the prefix removed by a pass is exactly the timers due |
| TimerService.PassStagesExactlyExpired | inc/timer.hpp:449-480 | a pass stages exactly the timers with timeout at or before now, in order, and keeps the others |
| TimerService.StartKeepsInv | inc/timer.hpp:370-411 | starting a timer keeps the invariant, even while the thread is parked |
| TimerService.CancelKeepsInv | inc/timer.hpp:168-202 | cancelling keeps it |
| TimerService.RunKeepsInv | inc/timer.hpp:449-534 | every pass of the service thread keeps it |
| TimerService.FireKeepsInv | inc/timer.hpp:471-480 | resuming a staged timer keeps it |
| TimerService.DropKeepsInv | inc/timer.hpp:339-347 | the destructor's cancelling keeps it |
| TimerService.RunsKeepInv | inc/timer.hpp:168-534 | the invariant holds after every run: sorted, distinct ids, exactly once, never early, never asleep past a timer |
| TimerService.EveryTimerOnce | inc/timer.hpp:449-480 | every started timer is pending, staged or resumed once; when none is left each was resumed exactly once, and as expired only at or after its timeout |
| TimerService.NeverOversleeps | inc/timer.hpp:516-533 | parked with no notification pending and a timer in the list, the thread has a deadline not after any timeout |
| TimerService.WorksExactlyWhen | inc/timer.hpp:182-197 | a run meets neither defect if and only if no cancel has to look past the first timer and no busy-wait finds the list empty |
| TimerService.OnlyCancelEmptiesBusyWait | inc/timer.hpp:497-515 | only a successful cancel of the single pending timer empties the list under a busy-waiting thread |
| TimerService.CancelOfSecondSpins | inc/timer.hpp:182-197 | two timers and a cancel of the later one spin for ever |
| TimerService.PollFindsNothing | inc/timer.hpp:499-510 | a timer in the busy-wait window, cancelled while the thread polls, makes it read the front of an empty list |
| TimerService.TimerServiceObject.constructor | inc/timer.hpp:311-321 | a new service has no thread and no timers |
| TimerService.TimerServiceObject.Notify_ | inc/timer.hpp:413-418 | notifies exactly if the flag is up, and takes it down |
| TimerService.TimerServiceObject.Start_ | inc/timer.hpp:370-411 | start_() launches the thread once, pushes, sorts and notifies as the model's start |
| TimerService.TimerServiceObject.IsRunning | inc/timer.hpp:142-161 | the search answers exactly whether the timer is pending |
| TimerService.TimerServiceObject.CancelTimer | inc/timer.hpp:168-202 | the search returns exactly under the stated condition, and then true exactly if the timer was running; true means that it was taken out and resumed as cancelled, with a waiting thread notified, false that nothing changed |
| TimerService.TimerServiceObject.Run | inc/timer.hpp:449-534 | one pass of the loop is one step of the model |
| TimerService.TimerServiceObject.Expire | inc/timer.hpp:454-469 | the expiry loop moves exactly the due prefix |
| TimerService.DefaultTimeoutIsBetween | src/timer.cpp:8-37 | when called outside the busy-wait window the wake-up lies after now and not after the timer; close to it, at the opening of the window |
| TimerService.SleepUsesBound | src/timer.cpp:18-34 | each sleep uses up one of the sleeps that can lie ahead |
| TimerService.SleepsWithinBound | src/timer.cpp:18-34 | a timer costs at most that many sleeps before its busy-wait window |
| TimerService.WakeUpsAreBounded | src/timer.cpp:8-37 | at most 2 + long threshold / early threshold sleeps, for every timer |
| TimerService.ServiceSleepsWithinBound | inc/timer.hpp:497-527 | the passes of the service thread itself, with the default algorithm, sleep no more often than the bound |
| TimerService.ServiceWakesBoundedly | inc/timer.hpp:449-534 | from any state of the service the thread sleeps at most 2 + long / early times before it fires the first timer or busy-waits for it |
| TimerLaws.CancelAnswers | inc/timer.hpp:168-202 | in every run a cancel that returns answers true exactly for a pending timer |
| TimerLaws.CancelTakesEffect | inc/timer.hpp:182-194 | and then has taken exactly that timer out, resumed it once as cancelled, left all others in place and no parked thread without a notification; otherwise it changed nothing |
| TimerLaws.CancelReturnsExactlyWhen | inc/timer.hpp:177-199 | a cancel returns exactly for a void sid, with nothing pending, and for the timer due next |
| TimerLaws.ResumedOnce | inc/timer.hpp:182-194 | no timer is resumed twice in any run |
| TimerLaws.CancelledNeverFires | inc/timer.hpp:182-194 | a timer for which cancel answered true is never resumed as expired, pending or staged again, whatever happens afterwards |
| TimerLaws.StartTakesEffect | inc/timer.hpp:370-411 | a started timer is running, in its place by timeout, all others are kept, and the service has a thread that is not parked un-notified |
| TimerLaws.DueTimersAreStaged | inc/timer.hpp:449-471 | once a timer is due, the thread's own next steps stage it, from wherever the thread is, together with all others due by then and no other |
| TimerLaws.StagedIsFired | inc/timer.hpp:474-477 | the k-th staged timer gets true with the k-th resumption, whatever is started or cancelled meanwhile |
| TimerLaws.PollAnswers | inc/timer.hpp:501-513 | the thread polls on exactly while the first timer is not due and within the window, and changes nothing |
| TimerLaws.IdlePassAnswers | inc/timer.hpp:481-533 | a pass with nothing due busy-waits exactly within the window, and otherwise sleeps until the time chosen but not past the first timeout, or with no timer until notified |
| TimerLaws.ShutdownTakesEffect | inc/timer.hpp:323-337 | the destructor stops the thread, which cannot sleep through it |
| TimerLaws.ShutdownLasts | inc/timer.hpp:449-536 | from then on no timer is started and the thread's next pass is its last |
| TimerLaws.DropsAll | inc/timer.hpp:340-347 | with the thread ended, the destructor resumes all pending timers as destroyed, in order, and leaves none |
| TimerLaws.SleepsEndEarly | src/timer.cpp:18-37 | with the default algorithm a sleep far from the timer ends the long threshold before it, a nearer one lasts the early threshold, the last ends when the busy-wait window opens |
| NodeList.List.constructor | inc/list.hpp:276-281 | a new list is empty and owns no block |
| NodeList.List.Front | inc/list.hpp:125-128 | the front is the first element |
| NodeList.List.Allocate | inc/alloc.hpp:446-460 | a block comes from the back of the pool if there is one, else from the system, and is nobody else's |
| NodeList.List.Deallocate | inc/alloc.hpp:463-471 | a block is pooled while there is room and freed otherwise |
| NodeList.List.LinkBack | inc/list.hpp:141-149 | the pointer updates append one node: the reachable nodes are the old ones and the new |
| NodeList.List.LinkFront | inc/list.hpp:163-171 | the pointer updates put one node in front |
| NodeList.List.UnlinkFront | inc/list.hpp:211-215 | the pointer updates remove the first node |
| NodeList.List.EmplaceBack | inc/list.hpp:134-150 | emplace_back appends; every block stays in exactly one place |
| NodeList.List.EmplaceFront | inc/list.hpp:156-172 | emplace_front prepends, likewise |
| NodeList.List.Pop | inc/list.hpp:209-216 | pop removes the first element and conserves the blocks |
| NodeList.List.Splice | inc/list.hpp:228-242 | the constant-time pointer work concatenates the two spines and empties the argument, in all four cases |
| NodeList.List.Concatenate | inc/list.hpp:226-243 | concatenation of two separate lists is concatenation of sequences; each keeps its own pool, and the lists stay separate |
| NodeList.List.SwapNodes | inc/list.hpp:276-279 | exchanging three fields exchanges the spines |
| NodeList.List.Move | inc/list.hpp:276-281 | moving exchanges contents and pools |
| NodeList.List.CopyAssign | inc/list.hpp:94-98 | copy assignment appends a deep copy in new or own blocks and leaves the source alone; the lists are equal if and only if the target was empty |
| NodeList.CopyOntoNonempty | inc/list.hpp:94-98 | assigning a list of 2 to a list of 1 leaves 1, 2 |
| NodeList.List.EmplaceBackBeside | inc/list.hpp:134-150 | appending to one list leaves a separate list alone |
| NodeList.List.Destroy | inc/list.hpp:69-80 | the destructor frees every block the list was responsible for |
| NodeList.List.SeparateBlocks | inc/list.hpp:226-243 | two lists are separate exactly when no block belongs to both |
| ListRuns.PerformOne | inc/list.hpp:134-216 | push and pop on one list, with the blocks it then answers for |
| ListRuns.PerformTwo | inc/list.hpp:226-281 | concatenate, move and copy between two lists, which stay separate |
| ListRuns.Step | inc/list.hpp:134-281 | any operation on some of any number of separate lists acts on their contents as on sequences, leaves the other lists alone and all of them separate |
| ListRuns.Execute | inc/list.hpp:134-281 | so does any sequence of operations |
| SizeClass.MaskDetectsPowers | src/lifecycle.cpp:213-216 | a word and its predecessor have no common bit exactly if it is a power of two |
| SizeClass.BitWidthBound | src/lifecycle.cpp:210-211 | the bit width is the least i with n below 2^i |
| SizeClass.IndexerIsLeast | src/lifecycle.cpp:200-219 | the index of a size is the least i with size at most 2^i |
| SizeClass.IndexerIsMonotone | src/lifecycle.cpp:200-219 | larger sizes have no smaller index, and none is above 64 |
| SizeClass.IndexerOfZero | src/lifecycle.cpp:210-217 | the index of zero wraps to 255 |
| SizeClass.LimitIsLargest | src/lifecycle.cpp:161-172 | a bucket's limit is at least one and is the most blocks that fit in max(byte limit, block) |
| SizeClass.TableServes | src/lifecycle.cpp:161-219 | a request is served from a bucket if and only if it is at most the largest block, by a block that fits and is less than twice as large |
| SizeClass.Info.constructor | src/lifecycle.cpp:154-173 | the loop builds the whole table |
| MemoryCache.CallKeepsBuckets | inc/memory.hpp:174-326 | a call keeps every bucket of its cache exact: counter == length within the limit, blocks of the bucket's own size and index |
| MemoryCache.OthersKeepBuckets | inc/memory.hpp:187-200 | and does not disturb the other caches |
| MemoryCache.CallKeepsLive | inc/memory.hpp:174-200 | blocks in callers' hands stay large enough and correctly labelled |
| MemoryCache.CallConserves | inc/memory.hpp:271-326 | every call conserves the places of every block |
| MemoryCache.AllocatedIsLargeEnough | inc/memory.hpp:174-184 | allocation of a positive size yields a block of at least that size, cached or not |
| MemoryCache.StepKeepsInv | inc/memory.hpp:174-326 | any call on any cache keeps the invariant of the whole system |
| MemoryCache.RunKeepsInv | inc/memory.hpp:154-326 | so does any run in which blocks may be returned to other caches |
| MemoryCache.AllocationIsSafe | inc/memory.hpp:174-184 | after any run, allocation yields a block that fits, that no caller held, and that is in no cache any more |
| MemoryCache.BlocksAreConserved | inc/memory.hpp:271-326 | after any run, a block is held by one caller or stands once in one free list, never both |
| MemoryCache.CountersAreExact | inc/memory.hpp:280-311 | after any run, each counter equals its free list's length and is within its limit |
| MemoryCache.LastInFirstOut | inc/memory.hpp:280-301 | returning a block to a cache with room and asking for its class again gives the same block and leaves the cache as it was |
| MemoryCache.AllocateAnswers | inc/memory.hpp:174-184 | a request takes the newest block of its class's free list exactly when that has one, changing nothing else; otherwise it gets new storage and no cache changes; zero is refused |
| MemoryCache.DeallocateAnswers | inc/memory.hpp:187-201 | a block given back is cached as the newest of its class exactly when a bucket has room, and is returned to the system otherwise |
| MemoryCache.DeallocateNullAnswers | inc/memory.hpp:187-201 | null is refused and changes nothing |
| MemoryCache.ClearReturnsTheCached | inc/memory.hpp:235-239 | after any run, clear() leaves its cache empty, returns exactly the blocks cached there, and touches no other cache and no block in use |
| MemoryCache.ConfigurationStays | inc/memory.hpp:313-316 | in every run each cache keeps the block sizes and limits it was built with |
| MemoryCache.CacheObject.constructor | inc/memory.hpp:154-166 | one bucket per entry of the table, at its index, empty |
| MemoryCache.CacheObject.AllocateFromBucket | inc/memory.hpp:280-290 | a bucket hands out its last cached block, or a new one of its size |
| MemoryCache.CacheObject.Allocate | inc/memory.hpp:174-184 | allocate() as specified, refusing zero |
| MemoryCache.CacheObject.Deallocate | inc/memory.hpp:187-200 | deallocate() as specified, by the index in the block's header, refusing null |
| MemoryCache.CacheObject.Clear | inc/memory.hpp:235-239 | clear() returns exactly the cached blocks and resets the counters |
| MemoryCache.CacheObject.ClearBucket | inc/memory.hpp:303-311 | the same for one bucket |
| MemoryCache.SystemAllocator.AllocateHeader | inc/memory.hpp:247-254 | a block obtained carries its index |
| SlabAllocation.TotalsTriple | inc/experimental/slab_allocator.hpp:240-246 | each slab brings the total to min(limit, three times the total before) |
| SlabAllocation.FewSlabs | inc/experimental/slab_allocator.hpp:239-247 | without pre-caching there are at most 1 + ceil(log3 limit) slabs |
| SlabAllocation.CeilLog3 | inc/experimental/slab_allocator.hpp:239-247 | the least k with 3^k at least n |
| SlabAllocation.OneSlabWhenPreCached | inc/experimental/slab_allocator.hpp:72-88 | pre-caching the whole limit leaves a single slab for good |
| SlabAllocation.HandOut | inc/experimental/slab_allocator.hpp:293-299 | the first free block moves to the blocks in use, and the two still partition the members of the list |
| SlabAllocation.HandBack | inc/experimental/slab_allocator.hpp:302-307 | a block in use moves to the front of the list, likewise |
| SlabAllocation.Intrudes | inc/experimental/slab_allocator.hpp:178-188 | a block from elsewhere that is pushed becomes a member, likewise |
| SlabAllocation.OneValueClearsFlag | inc/experimental/slab_allocator.hpp:212-223 | a single value never reaches the flag |
| SlabAllocation.GrowPartition | inc/experimental/slab_allocator.hpp:250-285 | a new slab enters the list as a whole, last block first |
| SlabAllocation.ThreadedSlabIsLinked | inc/experimental/slab_allocator.hpp:261-285 | the slab's threading leads through all its blocks and on into the old list |
| SlabAllocation.PartitionCounts | inc/experimental/slab_allocator.hpp:196-206 | the members are counted by the free blocks and the used blocks |
| SlabAllocation.SlabAllocator.Empty | inc/experimental/slab_allocator.hpp:66-70 | a new allocator has no slab |
| SlabAllocation.SlabAllocator.PreCached | inc/experimental/slab_allocator.hpp:80-88 | a pre-cached one has min(limit, size) blocks |
| SlabAllocation.SlabAllocator.Thread | inc/experimental/slab_allocator.hpp:261-285 | the loop links each block of the slab to the one before it, marked as the slab's |
| SlabAllocation.SlabAllocator.LinkSlab | inc/experimental/slab_allocator.hpp:257-285 | the list becomes the reversed slab followed by the old list |
| SlabAllocation.SlabAllocator.Write | inc/experimental/slab_allocator.hpp:212-223 | a caller that writes to its values changes the flag exactly by writing at its offset, which only an array reaches |
| SlabAllocation.SlabAllocator.Grow | inc/experimental/slab_allocator.hpp:239-290 | grows exactly below the limit, by one slab of the computed size |
| SlabAllocation.SlabAllocator.Unlink | inc/experimental/slab_allocator.hpp:293-299 | the first block leaves the list |
| SlabAllocation.SlabAllocator.Link | inc/experimental/slab_allocator.hpp:302-307 | a block enters in front |
| SlabAllocation.SlabAllocator.PopFree | inc/experimental/slab_allocator.hpp:293-299 | the first free block is handed out |
| SlabAllocation.SlabAllocator.PushFree | inc/experimental/slab_allocator.hpp:302-307 | a block with its flag up becomes the first of the list, whether or not it was a member |
| SlabAllocation.SlabAllocator.Allocate | inc/experimental/slab_allocator.hpp:155-170 | one value gets a block of the list exactly if one is free or the total is below the limit; all else gets a new block of the system with its flag down, and leaves the list alone; nothing is refused |
| SlabAllocation.SlabAllocator.Deallocate | inc/experimental/slab_allocator.hpp:178-188 | a block handed out from the list is free again; a block of the system stays out of the list if and only if its values end before the flag or left a zero there |
| SlabAllocation.SlabAllocator.SlabsAreFew | inc/experimental/slab_allocator.hpp:239-247 | the bounds hold in every state of an allocator that was not moved to |
| SlabAllocation.SlabAllocator.BlocksAreConserved | inc/experimental/slab_allocator.hpp:190-206 | each block of the slabs and each stray is free or used and not both, total + strays == available + used, and the total is within the limit |
| SlabAllocation.SlabAllocator.Move | inc/experimental/slab_allocator.hpp:309-315 | a move exchanges everything except the limits; each allocator is within its own if and only if what it received is |
| SlabAllocation.MoveCanExceedLimit | inc/experimental/slab_allocator.hpp:309-315 | a moved-to allocator can hold more blocks than its limit |
| SlabAllocation.ArrayEntersFreeList | inc/experimental/slab_allocator.hpp:162-187 | an array whose second value is not zero enters the free list of an allocator without a slab |
| SynchronizedList.StepKeepsParked | inc/synchronized_list.hpp:82-239 | every step keeps: a parked consumer has its flag up and the list empty and open, or a notification is on its way |
| SynchronizedList.NoLostWakeUp | inc/synchronized_list.hpp:82-239 | in every run, parked with no notification on its way means an empty, open list and the flag up |
| SynchronizedList.StepKeepsOrder | inc/synchronized_list.hpp:114-133 | pushing at the back and consuming keep: accepted == executed ++ current ++ list |
| SynchronizedList.RunConserves | inc/synchronized_list.hpp:114-162 | with pushes at either end, every accepted operation is executed, current or listed, as often as accepted |
| SynchronizedList.ExecutedInOrder | inc/blocking.hpp:277-310 | a worker executes accepted operations once and in order, and all of them before its destructor returns |
| SynchronizedList.ClosedNeverStuck | inc/blocking.hpp:282-286 | after close the consumer or a notification can always make a step until it ends |
| SynchronizedList.ClosedStepRank | inc/synchronized_list.hpp:82-96 | after close each such step uses up rank, and late pushes change nothing |
| SynchronizedList.ClosedDrains | inc/blocking.hpp:282-310 | so the destructor's join returns after boundedly many steps of any run |
| SynchronizedList.ClosedExactlyWhen | inc/synchronized_list.hpp:82-104 | in every run the list is closed if and only if close() was called |
| SynchronizedList.EmplaceAnswers | inc/synchronized_list.hpp:115-162 | an operation is accepted exactly if close() was not called; it is then at its end of the list, and a parked consumer is about to be notified |
| SynchronizedList.CloseAnswers | inc/synchronized_list.hpp:82-96 | close() keeps what is on the list and does not leave the consumer asleep |
| SynchronizedList.PopAnswers | inc/synchronized_list.hpp:223-239 | a pop takes the oldest accepted operation not yet executed whenever there is one; without one it ends exactly after close(), and waits otherwise |
| SynchronizedList.FinishAnswers | inc/blocking.hpp:282-310 | operations finish one by one in the order of acceptance |
| SynchronizedList.List.constructor | inc/synchronized_list.hpp:28-33 | a new list is empty and open |
| SynchronizedList.List.EmplaceBack | inc/synchronized_list.hpp:114-133 | the locked section refines its step and says whether a notification is due |
| SynchronizedList.List.EmplaceFront | inc/synchronized_list.hpp:143-162 | likewise at the front |
| SynchronizedList.List.CloseList | inc/synchronized_list.hpp:82-96 | closing takes effect once, with a notification if the consumer waits |
| SynchronizedList.List.PopRound | inc/synchronized_list.hpp:223-239 | a round of the loop takes the first value, ends on a closed and empty list, and waits otherwise |
| Blocking.Service.constructor | inc/blocking.hpp:387-393 | a new service has started no worker |
| Blocking.Service.Checkout | inc/blocking.hpp:401-426 | a worker handed out is nobody else's: the one kept longest, or a new one |
| Blocking.Service.TakeKept | inc/blocking.hpp:417-422 | the ring gives up its oldest worker |
| Blocking.Service.Checkin | inc/blocking.hpp:429-439 | a returned worker is kept while there is room and discarded otherwise, and is in one place only |
| Blocking.Service.WorkerCount | inc/blocking.hpp:201-211 | the reported count is the workers started and not discarded |
| Cleanup.InstalledInFront | inc/coroutine.hpp:112-118 | installing handlers puts them in front, the last first |
| Cleanup.LastInstalledIsLost | inc/coroutine.hpp:139-145 | a round removes a handler that installs nothing; otherwise it removes the one installed last, uncalled, and its installer stays behind the others |
| Cleanup.RoundsBalance | inc/coroutine.hpp:133-145 | calls made and handlers left are the handlers listed at first and those installed |
| Cleanup.EndsExactlyWhen | inc/coroutine.hpp:128-149 | whatever the handlers install at each call, cleanup ends if and only if the calls catch up with the handlers listed |
| Cleanup.EndsOnceInstallingStops | inc/coroutine.hpp:128-149 | it ends when from some call on no handler installs anything |
| Cleanup.InstallerNeverEnds | inc/coroutine.hpp:128-149 | it never ends when a listed handler installs at every call |
| Cleanup.OnceEachExactlyWhen | inc/coroutine.hpp:104-149 | every handler is called exactly once, last installed first, if and only if none of these calls installs another |
| Cleanup.InstallsOnce | inc/coroutine.hpp:139-145 | a handler that installs another at its first call only is called twice, and the other never |
| Cleanup.Promise.Install | inc/coroutine.hpp:112-118 | install() puts the handler first |
| Cleanup.Promise.InstallAll | inc/coroutine.hpp:141 | what a handler installs while it is called is in front when it returns |
| Cleanup.Promise.RunCleanup | inc/coroutine.hpp:128-149 | whenever the loop ends it has called exactly the handlers of its rounds and emptied the list |
| Threadpool.StartsGoRound | src/threadpool.cpp:24-34 | the k-th call from now starts k places further round |
| Threadpool.EachStartOnce | src/threadpool.cpp:24-34 | of n calls in a row exactly one starts at each worker |
| Threadpool.FirstLightestIsUnique | src/threadpool.cpp:36-79 | there is only one worker that is lightest and first in cyclic order |
| Threadpool.EqualWorkloadsShare | src/threadpool.cpp:11-34 | under equal workloads n calls in a row choose each of the n workers exactly once |
| Threadpool.Service.IterateWorkloads | src/threadpool.cpp:44-63 | a segment scan keeps the first lightest worker seen and stops at an idle one |
| Threadpool.Service.Lightest | src/threadpool.cpp:10-80 | the two-segment search returns the lightest worker that comes first round from the starting index, and moves that index on |
| Matching.FlipAugments | tst/googletest/googlemock/src/gmock-matchers.cc:200-205 | flipping an augmenting path keeps the two vectors mutually inverse and matches its start, changing no other free left node |
| Matching.PathAvoidsDead | tst/googletest/googlemock/src/gmock-matchers.cc:135-146 | no augmenting path touches the region that failed searches explored |
| Matching.ExploredHasNoPath | tst/googletest/googlemock/src/gmock-matchers.cc:184-208 | what a failed search has explored holds no augmenting path |
| Matching.PathGrows | tst/googletest/googlemock/src/gmock-matchers.cc:200-205 | a path found further on extends by the edge that led to it, and so does its flip |
| Matching.UnseenMonotone | tst/googletest/googlemock/src/gmock-matchers.cc:172-177 | marking a right node leaves fewer unseen ones, which bounds the recursion |
| Matching.MaxBipartiteMatchState.constructor | tst/googletest/googlemock/src/gmock-matchers.cc:126-129 | nothing is matched at first |
| Matching.MaxBipartiteMatchState.TryAugment | tst/googletest/googlemock/src/gmock-matchers.cc:184-208 | the search succeeds if and only if an augmenting path exists, and then has flipped one; otherwise it changes nothing |
| Matching.MaxBipartiteMatchState.Compute | tst/googletest/googlemock/src/gmock-matchers.cc:132-163 | the result is a matching of the graph, no matching is larger, and no unmatched left node could be augmented |
| Matching.SuccessKeepsDead | tst/googletest/googlemock/src/gmock-matchers.cc:135-154 | a success leaves the region of earlier failures intact |
| Matching.FailureExtendsDead | tst/googletest/googlemock/src/gmock-matchers.cc:141-154 | a failed search adds what it explored to the dead region, which covers its start from then on |
| Matching.FailedStaysFailed | tst/googletest/googlemock/src/gmock-matchers.cc:141-146 | in every later state no augmenting path starts from a left node that failed once |
| Matching.CoverBoundsMatching | tst/googletest/googlemock/src/gmock-matchers.cc:132-163 | at the end a vertex cover of the matching's size bounds every matching |
| Matching.FindMaxBipartiteMatching | tst/googletest/googlemock/src/gmock-matchers.cc:228-230 | the library's call returns a maximum matching |

## Left out

- Logging, printing, thread priorities, the lifecycle singletons and configuration plumbing: input, output and glue.
- The C++ memory model below the locks, alignment, and exceptions that escape a coroutine: lock sections are atomic here, and a resumed coroutine yields, ends or suspends.
- `tst/googletest` except the bipartite matching: not this project's behaviour.
- `inc/mutex.hpp` and `inc/condition_variable.hpp`: not built by `inc/hce.hpp`, and unfinished.
- The experimental files other than the slab allocator: not used by the runtime.
- Timer tick statistics and `scheduled_count`: heuristics without a stated promise. The threadpool search is stated for a fixed snapshot of the workloads.
- A synchronized list with several blocked consumers: its one waiting flag is meant for the single consumer that a worker has.
- Self-concatenation of a list, and putting a value into a full or zero-capacity ring: callers exclude them, and so do the preconditions.
- Caches whose tables have different block sizes: all caches of a process share the indexer and the block sizes; their limits differ freely in the model.
- MemoryCache.CacheObject: a cache's free lists are sequences of addresses and the headers a map from addresses, so the bytes before a block and the copying inside `std::vector` are not modelled.
- Cleanup.Promise: the list of nodes, which are never updated after construction, is a sequence of handlers here.
- Cleanup.Promise.RunCleanup: asks for a cleanup that ends, since a loop that does not end never returns; when it ends is what EndsExactlyWhen says.
- Threadpool.Service: the workers are indices into the snapshot.
- SchedulerSystem.OwnershipInEveryRun: an awaitable is taken to hold its handle, or to have given it up, at each step; the finer steps of its lock are the Handshake module's, and the two modules are not connected by a theorem.
- Scope.StepKeepsInv: `add` is taken to be called by threads outside coroutines. Inside one it ends the process, because the awaitable of its send is dropped without being awaited.
- NodeList.List.CopyAssign: the elements are values, so that copying one cannot fail or alias.
- SlabAllocation.SlabAllocator.Write: of a block's memory the flag byte is modelled, and pointers have eight bytes.
- UnbufferedChannel.SenderResumedTwice: what a second resumption does depends on whether the sender's coroutine ran in between, and is left undefined.
- TimerService.ServiceWakesBoundedly: assumes that no sleep ends before its deadline and that no timer is started or cancelled meanwhile, and thresholds that are not negative with a positive early one.
