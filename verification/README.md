# Event notification, timers and connections: a verified model

This project models five state machines and proves what they promise over every run and every
interleaving of threads:

* **epoll** (`eventpoll.c`): wakeup callbacks, `ep_insert`, sleeping `ep_poll` callers and the scan
  of `ep_scan_ready_list` share the ready list, the stolen list and the overflow chain. Each
  `ep->lock` critical section and each iteration of the scan loop is one step; any number of threads
  and items take part.
* **Timer queue** (`TimerQueue.cc`, `Timer.*`): two indexes over raw timer pointers, deferred
  cancellation and one kernel timer. Callbacks are arbitrary sequences of steps inside a batch.
* **Event loop** (`EventLoop.cc`): a queue of functors with many producers, swapped out and drained
  by the loop thread, with an eventfd for wakeups.
* **TCP connections** (`TcpConnection.cc`, `Channel.*`, `TcpServer.cc`): the output stream with
  partial writes, half-close and watermark notifications, and the teardown protocol between the
  server's loop and the I/O loops.
* **memcached dispatch** (`memcached.c`): round-robin handoff of connections through a queue and a
  notification pipe per worker.

Every machine has the same three layers. A specification module defines the state, the steps and the
runs. Theorem modules prove invariants of all reachable states and properties of whole runs. A class
models the object that the source mutates; each of its methods is proved to take exactly the steps
of the specification, so the theorems apply to it.

## Reading guide

| file | content |
|---|---|
| `Epoll.dfy`, `EventMasks.dfy` | the ready-list protocol |
| `EpollSafety.dfy`, `EpollTriggers.dfy`, `EpollFairness.dfy`, `EpollInsert.dfy` | its theorems |
| `EpollOutcomes.dfy` | what one callback, one scan and one call of epoll_wait amount to |
| `EventPoll.dfy` | `struct eventpoll` with the pointer-linked overflow chain |
| `WatchLimit.dfy` | the per-user watch limit |
| `Timers.dfy`, `TimerQueueSpec.dfy` | timers, the ordered index, the timer queue |
| `Scheduler.dfy`, `TimerQueueRefinement.dfy` | a simple scheduler and the proof that the queue refines it |
| `TimerQueueSafety.dfy`, `TimerQueueTheorems.dfy` | ownership, arming, cancellation |
| `TimerArming.dfy` | for which timer and when the timerfd is armed |
| `TimerBatch.dfy` | a whole batch: what runs, in which order, with what outcome |
| `TimerQueue.dfy` | the class |
| `EventLoopSpec.dfy`, `EventLoop.dfy` | the functor queue and the class |
| `TcpConnectionSpec.dfy`, `TcpStream.dfy`, `HalfClose.dfy`, `TcpEvents.dfy`, `TcpEffects.dfy` | one connection |
| `ConnNames.dfy`, `Teardown.dfy` | addresses and connection names, the server with all its connections |
| `TcpConnection.dfy`, `TcpServer.dfy` | the classes |
| `Dispatch.dfy`, `Dispatcher.dfy` | memcached dispatch and the class |
| `Sequences.dfy` | duplicate-free sequences |

## Findings

Properties that the sources suggest and that do not hold on all inputs. Each has a run or family of
inputs on which it fails, and the exact condition.

* eventpoll.c:562-564, 676: `ep_insert` checks the watch limit before it counts, so k eventpolls can
  exceed a positive limit by k - 1, and no more (`WatchLimit.OvershootBound`, `WatchLimit.OvershootReached`).
* TimerQueue.cc:170-190: a cancellation has no effect exactly if the timer is not added yet
  (`TimerQueueTheorems.CancelWorksIffAdded`, `TimerQueueTheorems.EarlyCancelIsLost`).
* EventLoop.cc:183: functors queued before `loop()` do not wake the first poll exactly if they all
  come from the loop thread (`EventLoopSpec.StartsAsleepIff`, `EventLoopSpec.QueuedBeforeLoopSleeps`).
* TcpConnection.cc:105-112, 197-216: a message that `send` accepted on another thread is lost if
  shutdownWrite comes before its functor. The messages cut off are exactly those whose functors were
  queued at that moment (`HalfClose.HalfCloseCutsOffTheQueued`, `HalfClose.AcceptedSendLost`).
* TcpConnection.cc:197-206, 403-406: shutdownWrite is issued twice exactly if a shutdown called on
  another thread was still queued when the drained buffer issued it first
  (`HalfClose.IssuedTwiceIff`, `HalfClose.IssuedTwice`).
* Channel.cc:93-112, TcpConnection.cc:303-311, 430: the assert in `handleClose` fails exactly when one
  event brings POLLHUP without POLLIN, a read bit and an end-of-file read, or when an event closes a
  connection that is not up, which it can reach only after a startRead in that state
  (`TcpEvents.EventClosesOnceIff`, `Teardown.AssertsHoldIff`, `Teardown.ClosedAgain`).
* Channel.cc:65, TcpConnection.cc:303-311, 353: `connectDestroyed` finds interest left, against the
  assert in `remove`, exactly if startRead was the last read toggle since the connection went down
  (`TcpEvents.NoInterestIffNotReading`, `Teardown.AssertsHoldIff`, `Teardown.DestroyedWhileReading`).
* TcpConnection.cc:303-326, Channel.cc:41: a destroyed connection is back on the poller, against the
  assert of its channel's destructor, exactly if a startRead or stopRead took effect after
  `connectDestroyed` (`Teardown.ConnectionLifecycle`, `Teardown.ToggleRegisters`,
  `Teardown.DestroyedButRegistered`).
* memcached.c:473-475, 184-188: a failed write leaves a connection in its worker's queue, and a failed
  read acts on an unset byte; what that does to the queue is counted exactly
  (`Dispatch.EveryNotePops`, `Dispatch.HandoffInOrder`).

## Model

| member | source | states |
|---|---|---|
| EpollSafety.NoLostWakeup | eventpoll.c:984-1059 | in every interleaving, while the ready list is nonempty, no scan runs and a waiter sleeps, another thread on the wait queue is awake or another thread is committed to a scan |
| EpollSafety.ExitsLoseNothing | eventpoll.c:1012-1061 | -EINTR and an empty timeout happen only if the same lock hold saw no event; a count never exceeds maxevents; a caller leaves the wait queue exactly when it returns or goes on to a scan |
| EpollSafety.NoLostEvent | eventpoll.c:810-856 | after every run an item hit by a matching callback and not re-polled since is on the ready list, the stolen list or the overflow chain |
| EpollSafety.ListsStayWellFormed | eventpoll.c:1101-1153 | over every run the lists are disjoint and duplicate-free, the overflow chain is active exactly while a scan holds the mutex, and a scan can always take an item or end, never both |
| EpollSafety.StepKeepsInv | eventpoll.c:775-1267 | every step of callbacks, waiters, scans and inserts keeps the list, mutex, wait-queue, wakeup and scan invariants |
| EpollSafety.RunKeepsInv | eventpoll.c:775-1267 | the same for whole runs |
| EpollSafety.RequeueInv | eventpoll.c:1128-1153 | the end of a scan requeues exactly the items of the three lists, each once |
| EpollSafety.GrowthWakes | eventpoll.c:853-881 | the ready list becomes nonempty outside a scan only in a step that reaches wake_up_locked |
| EpollSafety.WakeOneInv | eventpoll.c:859-881 | a wakeup keeps the wait queue consistent and leaves a thread awake if one was asleep |
| EpollSafety.ScanFrame | eventpoll.c:1187-1191 | during a scan nothing but the scan changes the ready list, the stolen list or the masks |
| Epoll.FirstAsleep | eventpoll.c:880 | finds a sleeping queued thread if there is one |
| EpollTriggers.OneShotOncePerArming | eventpoll.c:1237-1239 | between two armings a one-shot item is delivered at most once, and never once disabled, whatever callbacks hit it during its delivery |
| EpollTriggers.EdgeTriggeredNeedsCallback | eventpoll.c:1227-1263 | deliveries of a not level-triggered item are covered by the list places it held and, since then, its matching callbacks and the armings that found it ready |
| EpollTriggers.LevelTriggeredStaysReady | eventpoll.c:1240-1262 | every level-triggered item a scan delivered is on the ready list when the scan ends |
| EpollFairness.ReadyItemPolledWithin | eventpoll.c:1106-1153 | with callers asking for at least m events, no copy faults and the item neither removed nor its insert failed, an item with p items ahead is polled within p / m + 1 scans |
| EpollFairness.WaitingScan | eventpoll.c:1197-1263 | a scan that does not reach the item brings it at least m places forward |
| EpollFairness.WaitingIdle | eventpoll.c:853-856 | outside scans an item never moves backwards on the ready list |
| EpollInsert.FailedInsertInvisible | eventpoll.c:628-710 | a failing insert with any interleaving leaves items, tree, file links and lists as the callbacks of the other items alone would have |
| EventMasks.MatchesIffHits | eventpoll.c:810-821 | a callback concerns an item exactly if its mask has a bit besides the four configuration bits and the key is empty or shares a bit with the mask |
| EpollOutcomes.CallbackEffect | eventpoll.c:810-881 | in every reachable state a callback that hits puts the item on the tail of the ready list and wakes the first sleeper, or during a scan on the head of the chain; any other does nothing |
| EpollOutcomes.ScanOutcome | eventpoll.c:1101-1153 | after a whole scan the ready list is what was not taken, then the level-triggered items delivered, then the new arrivals not among these; everything else polled is gone |
| EpollOutcomes.ScanReturns | eventpoll.c:1196-1267 | a scan ends exactly when the list is used up, maxevents events were copied or a copy faulted, and returns the number copied, the fault exactly if the last step faulted and nothing was copied, or 0 |
| EpollOutcomes.EndScanWakes | eventpoll.c:1156-1166 | the end of a scan wakes the first sleeper exactly if something is left |
| EpollOutcomes.WakeOneWakesFirst | eventpoll.c:880 | a wakeup wakes the sleeper that queued first and nobody else |
| EpollOutcomes.ArmingSetsMask | eventpoll.c:503-522 | an arming asks for the events given and always for errors and hang-ups |
| EpollOutcomes.MaskSinceArming | eventpoll.c:1237-1239 | until the next arming the mask changes only when a one-shot item is delivered, to its configuration bits |
| EpollOutcomes.InsertEndEffect | eventpoll.c:657-665 | an insert lists its item and wakes exactly if the item is ready for an event it asks for and not listed |
| EpollOutcomes.ModifyEffect | eventpoll.c:519-525 | a change of the mask lists the item and wakes exactly if it is ready for what it now asks and not listed |
| EpollOutcomes.RemoveEffect | eventpoll.c:511-517 | a removed item is on no list and in no index, and the others stay as they are |
| EpollOutcomes.CheckEffect | eventpoll.c:987-1050 | a locked check lets the caller scan exactly if an event is available, else return 0 if its time is up, else -EINTR if a signal is pending, else sleep |
| EpollOutcomes.QueueOrder | eventpoll.c:1007-1042 | a new waiter goes to the tail of the wait queue and the others keep their order |
| EpollOutcomes.TimeIsUpIff | eventpoll.c:973-1060 | over every run a caller's time is up exactly if it asked not to wait or its timer fired |
| EpollOutcomes.OthersStay | eventpoll.c:984-1043 | a step of one caller moves no other |
| WatchLimit.OvershootBound | eventpoll.c:562-564 | in every interleaving of k eventpolls the counter is at most max_user_watches + k - 1 |
| WatchLimit.OvershootReached | eventpoll.c:562-676 | for every k and every positive limit some interleaving reaches that bound |
| WatchLimit.CounterIsExact | eventpoll.c:676-710 | the counter changes by completed inserts and releases only; failing inserts leave no trace |
| EventPollImpl.EventPoll.PollCallback | eventpoll.c:775-897 | a callback on the pointer structure refines the protocol step, keeps the chain acyclic, and returns 0 exactly for an exclusive item that does not absorb the wakeup |
| EventPollImpl.CallbackResultIff | eventpoll.c:859-896 | the callback returns 0 exactly for an exclusive item, unless it hits outside a scan, somebody waits, the queue is not freed and the key names at most one direction, which the item asks for |
| EventPollImpl.EventPoll.ChainItem | eventpoll.c:835-846 | the item becomes the head of the overflow chain unless it is on it; the chain stays acyclic |
| EventPollImpl.EventPoll.WakeForCallback | eventpoll.c:863-881 | wakes the first sleeper and computes whether an exclusive wakeup is absorbed |
| EventPollImpl.DrainChain | eventpoll.c:1128-1141 | following the pointers requeues exactly the chained items that are not linked, newest first, and resets every next pointer |
| EventPollImpl.ChainUnique | eventpoll.c:1128-1129 | the pointers determine the chain |
| EventPollImpl.EventPoll.PollOnce | eventpoll.c:973-1050 | a zero timeout looks at the lists once |
| EventPollImpl.EventPoll.FetchEvents | eventpoll.c:987-1050 | the first lock hold of ep_poll takes the fetch step and returns as specified |
| EventPollImpl.EventPoll.RecheckEvents | eventpoll.c:1018-1050 | the lock hold after a sleep takes the recheck step and returns as specified |
| EventPollImpl.EventPoll.StealReadyList | eventpoll.c:1101-1113 | the opening critical section of a scan |
| EventPollImpl.EventPoll.DeliverHead | eventpoll.c:1199-1263 | one item is polled, then delivered, requeued, disabled or put back |
| EventPollImpl.EventPoll.SendOne | eventpoll.c:1197-1263 | one iteration is one scan step and keeps the invariant |
| EventPollImpl.EventPoll.SendEvents | eventpoll.c:1196-1266 | the loop is the run of scan steps and callbacks that its rounds name, one per pass, and ends exactly when the list is empty, maxevents are reached or a copy faults |
| EventPollImpl.EventPoll.RequeueItems | eventpoll.c:1128-1153 | overflow items go to the tail, leftovers to the head, all next pointers are reset |
| EventPollImpl.EventPoll.CloseScan | eventpoll.c:1156-1175 | wakes a waiter if items are left, releases the mutex and sends the caller back or out |
| EventPollImpl.EventPoll.FinishScan | eventpoll.c:1121-1176 | the closing critical section of a scan; its return value is pinned by ScanResultIs |
| EventPollImpl.EventPoll.ScanReadyList | eventpoll.c:1075-1177 | a whole scan against interfering callbacks is a run of the protocol; it returns the number of events its steps copied, at most maxevents, or -EFAULT if the last step faulted and none was copied, or 0, in agreement with what the caller does next |
| EventPollImpl.ScanResultIs | eventpoll.c:1227-1267 | the result of a scan is what its steps copied, counted from the steps, and at most maxevents |
| EventPollImpl.EventPoll.InsertHooks | eventpoll.c:570-617 | installs the hooks with the always-reported events added |
| EventPollImpl.EventPoll.InsertComplete | eventpoll.c:646-674 | a ready item is linked and a waiter woken |
| EventPollImpl.EventPoll.InsertAbort | eventpoll.c:684-710 | undoes the insert |
| Timers.HowMuchTimeFromNow | TimerQueue.cc:44-59 | the timespec is normalized, never zero, and equals the difference clamped to 100 microseconds |
| Timers.ResetTimerFd | TimerQueue.cc:74-87 | the timer is armed for the expiration or for 100 microseconds from now |
| Timers.SentinelSplits | TimerQueue.cc:218-222 | the lower bound of (now, UINTPTR_MAX) separates exactly the due entries |
| Timers.LowerBound | TimerQueue.cc:221 | counts the entries below the key |
| Timers.InsertSorted | TimerQueue.cc:287-290 | insertion keeps the order |
| Timers.EraseSorted | TimerQueue.cc:179 | erasing removes exactly the entry and keeps the order |
| TimerQueueSafety.NeverArmedLate | TimerQueue.cc:159-272 | outside handleRead a nonempty queue has the timerfd armed no later than the earliest expiration or 100 microseconds after arming, over every run |
| TimerArming.WhoArms | TimerQueue.cc:159-271 | an add re-arms exactly if its time is below all others, the end of a batch exactly if a timer with a valid time is first, both for that timer; the start of a batch reads an expired timerfd; nothing else touches it |
| TimerArming.ArmedForEarliest | TimerQueue.cc:74-87 | over every run an armed timerfd has the deadline of the timer that was earliest when it was armed, or 100 microseconds after that moment if later |
| TimerArming.AddTimeInMicroseconds | Timer.cc:16-22 | an interval of k seconds adds k million microseconds, and fractions are rounded down |
| TimerQueueSafety.TimersHaveOneOwner | TimerQueue.cc:170-303 | each live timer is in exactly one of pending add, indexed, current batch; entries never dangle; both indexes list the same timers and have the same size |
| TimerQueueSafety.StaleIdIsHarmless | TimerQueue.cc:170-185 | cancelling an id whose timer is gone deletes nothing, even if the address is in use again |
| TimerQueueSafety.SequencesUnique | Timer.h:31-37 | two live timers never share a sequence number |
| TimerQueueSafety.StepKeepsInv | TimerQueue.cc:159-303 | every step keeps ownership, index agreement, order and arming |
| TimerQueueSafety.RunKeepsInv | TimerQueue.cc:159-303 | the same for whole runs |
| TimerQueueSafety.SplitBatch | TimerQueue.cc:216-236 | getExpired splits the index into the due part, in order, and the rest |
| TimerQueueRefinement.QueueRefinesScheduler | TimerQueue.cc:159-303 | every step of the two-index queue is the simple scheduler's step for every timer ever created |
| TimerQueueRefinement.RunsOnceEach | TimerQueue.cc:204-208 | the loop runs only timers that are due and have not run in this batch |
| TimerQueueRefinement.BatchCompletes | TimerQueue.cc:204-212 | reset starts only after every due timer ran, and handleRead ends only after all are settled |
| TimerQueueRefinement.CreateWaits | TimerQueue.cc:124-137 | a new timer gets the next number and waits to be added |
| TimerQueueTheorems.CancelIsFinal | TimerQueue.cc:170-190 | a cancelled timer that had been added is never indexed again and runs at most once more, and only if it is in the current batch and has not run in it |
| TimerQueueTheorems.CancelWorksIffAdded | TimerQueue.cc:170-190 | a cancellation takes effect exactly if the timer is not still waiting to be added |
| TimerQueueTheorems.EarlyCancelIsLost | TimerQueue.cc:124-190 | after a cancellation that came too early, inside a batch or outside, some continuation runs the timer |
| TimerQueueTheorems.DeletedForGood | TimerQueue.cc:181-258 | a deleted timer stays deleted and never runs, even when its address is reused |
| TimerQueueTheorems.DueTimersRunOnce | TimerQueue.cc:193-260 | a whole handleRead runs each due timer exactly once and leaves it at now + interval if it repeats and was not cancelled, deleted otherwise |
| TimerQueueTheorems.LaterTimersUntouched | TimerQueue.cc:193-260 | a timer not yet due does not run and stays as it is unless a callback cancels it |
| TimerBatch.BatchRunsExactlyTheDue | TimerQueue.cc:193-213 | a whole handleRead runs a timer exactly once if it was due at the start and never otherwise, also if it is added meanwhile with a past time |
| TimerBatch.BatchOutcome | TimerQueue.cc:193-260 | after a whole handleRead every timer, old or created meanwhile, is where its expiration, repetition, additions and cancellations put it |
| TimerBatch.RunsInExpirationOrder | TimerQueue.cc:204-208 | if one timer runs before another in one handleRead, its expiration at the start was not later |
| TimerBatch.NewThroughBatch | TimerQueue.cc:193-213 | a timer waiting or created meanwhile does not run; it waits, is scheduled or deleted according to its add and the cancellations after it |
| TimerBatch.DueSinceStart | TimerQueue.cc:216-236 | whatever is due inside a batch was due when it started, with the same job |
| TimerQueueImpl.TimerQueue.NewTimer | Timer.h:31-37 | a new timer has a larger sequence number than every live one |
| TimerQueueImpl.TimerQueue.InsertBoth | TimerQueue.cc:275-303 | inserts into both indexes and says whether the earliest expiration changed |
| TimerQueueImpl.TimerQueue.AddTimerInLoop | TimerQueue.cc:159-168 | takes the add step and re-arms if needed |
| TimerQueueImpl.TimerQueue.AddTimer | TimerQueue.cc:124-137 | creates and adds on the loop thread; the returned id is active |
| TimerQueueImpl.TimerQueue.CancelTimerInLoop | TimerQueue.cc:170-190 | takes the cancel step; exactly one entry is erased if the id is active |
| TimerQueueImpl.TimerQueue.GetExpired | TimerQueue.cc:216-236 | moves the due timers out of both indexes |
| TimerQueueImpl.TimerQueue.ResetFirst | TimerQueue.cc:246-259 | restarts and re-inserts, or deletes, one expired timer |
| TimerQueueImpl.TimerQueue.ResetExpired | TimerQueue.cc:243-260 | the loop of reset settles the whole batch |
| TimerQueueImpl.TimerQueue.HandleRead | TimerQueue.cc:193-213 | a whole handleRead is one batch of the specification in which every due timer runs with its script, in order, and is then reset |
| EventLoopSpec.TasksRunOnceInOrder | EventLoop.cc:168-352 | at every point the pushes equal the functors run, then the current batch, then the queue |
| EventLoopSpec.DrainRunsTheSwapped | EventLoop.cc:326-352 | a drain runs exactly what was queued at its swap; what is queued meanwhile stays for the next |
| EventLoopSpec.NeverAsleepWithWork | EventLoop.cc:115-187 | a loop about to block or blocked with functors queued has its eventfd readable or a producer between push and wakeup, in every interleaving, unless it started asleep |
| EventLoopSpec.StartsAsleepIff | EventLoop.cc:107-115 | the loop starts asleep with work exactly if functors were queued before loop() and no other thread queued one or quit it |
| EventLoopSpec.QueuedBeforeLoopSleeps | EventLoop.cc:168-187 | one functor queued on the loop thread before loop() is such a run |
| EventLoopSpec.CounterIsWakes | EventLoop.cc:300-323 | over any run the eventfd holds the wakeups since it was last read |
| EventLoopSpec.PushedIsPushes | EventLoop.cc:168-175 | the functors pushed are those of the push steps, in order, and one is run per run step |
| EventLoopSpec.OwingIsOwes | EventLoop.cc:142-187 | the threads that owe a wakeup are exactly those between their push or quit and their wakeup |
| EventLoopSpec.StopsIffQuit | EventLoop.cc:107-151 | after a drain the loop stops exactly if quit was called since it started |
| EventLoopSpec.LoopOwesIff | EventLoop.cc:183 | the loop thread wakes itself exactly for functors it pushes while draining |
| EventLoopImpl.EventLoop.QueueInLoop | EventLoop.cc:168-187 | pushes at the end, and leaves the eventfd readable for calls of other threads and during a drain |
| EventLoopImpl.EventLoop.RunInLoop | EventLoop.cc:154-166 | runs at once on the loop thread, queues and wakes otherwise |
| EventLoopImpl.EventLoop.RunFunctors | EventLoop.cc:343-346 | the drain loop runs the whole swapped-out vector in order, each functor with what it and other threads queue meanwhile |
| EventLoopImpl.EventLoop.DoPendingFunctors | EventLoop.cc:326-352 | a drain is a run of the specification that runs exactly the functors queued before it; later ones stay queued with a wakeup stored or owed |
| EventLoopImpl.EventLoop.LoopOnce | EventLoop.cc:115-137 | one pass is a run of the specification; it runs everything queued before its drain, in order, does not end asleep with work, and if it read the eventfd leaves in it only the wakeups of that pass |
| TcpStream.StreamIntegrity | TcpConnection.cc:142-195 | accepted bytes followed by the buffer are the messages in sendInLoop order without those that broke or came when the connection was down, and all messages exactly if those were empty; write interest holds exactly while bytes are buffered |
| TcpStream.NothingLostWithoutFault | TcpConnection.cc:149-177 | without EPIPE or ECONNRESET every message is kept, unless it reaches sendInLoop when the connection is down |
| TcpStream.WriteCompleteMeansWritten | TcpConnection.cc:382-408 | a write-complete notification is queued only when everything accepted has been written |
| TcpStream.HighWaterPerCrossing | TcpConnection.cc:180-195 | one high-water notification per upward crossing of the mark, over any run |
| TcpStream.FellBelowBetween | TcpConnection.cc:180-195 | between two notifications the buffered length fell below the mark |
| HalfClose.AcceptedIsAccounted | TcpConnection.cc:97-114 | every message send accepted, on any thread, has reached sendInLoop exactly once or is still queued |
| HalfClose.NothingWrittenAfterHalfClose | TcpConnection.cc:197-216 | in every run, once shutdownWrite was issued no byte is written or buffered any more, and on a connection that is not down it comes after everything taken was written |
| HalfClose.HalfCloseCutsOffTheQueued | TcpConnection.cc:105-112 | the messages cut off by the half-close are exactly, in order, those whose send functors were queued when shutdownWrite was issued |
| HalfClose.AllAcceptedWrittenIff | TcpConnection.cc:97-216 | with the queue empty and no earlier fault, all accepted messages are on the wire exactly if every send queued at the shutdownWrite was empty |
| HalfClose.AcceptedSendLost | TcpConnection.cc:105-112 | a run that loses an accepted message this way |
| HalfClose.IssuedTwiceIff | TcpConnection.cc:197-216 | shutdownWrite is issued at most twice, and twice exactly if a posted shutdown was queued at the first and has run |
| HalfClose.IssuedTwice | TcpConnection.cc:382-408 | a run that issues it twice |
| HalfClose.IssuedIff | TcpConnection.cc:197-216 | a step issues shutdownWrite exactly if it is a shutdown with nothing buffered, a posted one that finds nothing buffered or the connection down, or a write that drains a disconnecting connection |
| HalfClose.ShutdownIsPrompt | TcpConnection.cc:382-408 | over every run, once a shutdown took effect and while the connection is not down, shutdownWrite has been issued exactly if nothing is buffered |
| HalfClose.GracefulOnLoopThread | TcpConnection.cc:97-216 | with all calls on the loop thread it is issued at most once, after every accepted message that was taken is written, and no message is accepted after it |
| TcpEvents.StateOnlyAdvances | TcpConnection.cc:329-443 | over every run the state only moves forward |
| TcpEvents.EventClosesOnceIff | Channel.cc:89-120 | on a connection in any state, with any calls of the message callback, an event fails the assert of handleClose exactly if it closes twice or closes a connection that is not up; else it disconnects once, exactly when it closes, and otherwise leaves the life cycle alone |
| TcpEvents.DoubleCloseNeedsUnsafeBits | Channel.cc:93-112 | no read result can make the assert fail exactly if POLLHUP without POLLIN comes without a read bit |
| TcpEvents.NoInterestIffNotReading | TcpConnection.cc:298-326 | on a connection that is down the channel watches for reads exactly if startRead was the last read toggle and never for writes, whatever else is called or runs, so connectDestroyed may proceed exactly if it was not |
| TcpEvents.HarmlessRun | TcpConnection.cc:97-326 | user calls on any thread and writes neither connect nor disconnect; on a connection that is not up they bring back no interest but read interest, according to the last read toggle |
| TcpEvents.PostedStep | TcpConnection.cc:105-206 | a functor queued by send or shutdown leaves the life cycle alone, and the channel too once the connection is down |
| TcpEffects.SendEffect | TcpConnection.cc:142-195 | exactly the bytes write(2) took go on the wire and the rest into the buffer, behind what is buffered; a broken or late message leaves neither |
| TcpEffects.SendCompletesIff | TcpConnection.cc:156-163 | a send queues write-complete exactly if it wrote the whole message at once |
| TcpEffects.WriteEffect | TcpConnection.cc:382-408 | a write event moves exactly what write(2) takes, and queues write-complete exactly if that was the last of the buffer |
| TcpEffects.OthersWriteNothing | TcpConnection.cc:197-354 | no other step writes, buffers or notifies |
| TcpEffects.SendGate | TcpConnection.cc:97-114 | send is accepted exactly on a connection that is up, now or as a functor |
| TcpEffects.StateEffect | TcpConnection.cc:197-443 | the state after every step, and that the connection callback fires exactly when the connection comes up or goes down |
| TcpEffects.ReadInterestIsLastToggle | TcpConnection.cc:298-326 | over every run reading_ is the last read toggle, and so is the read interest between the steps that set it |
| TcpEffects.EventBits | Channel.cc:93-112 | which bits run the close handler and the message callback |
| TcpEffects.EventOrder | Channel.cc:89-120 | the handlers run in the order close, read, write, so a write event sees what the message callback sent |
| ConnNames.DigitsInjective | TcpServer.cc:106 | decimal numbers are injective |
| ConnNames.DigitsRoundTrip | TcpServer.cc:106 | the decimal text of a number reads back as the number |
| ConnNames.NameIsWhole | TcpServer.cc:104-110 | a name is the server's name, a dash, the address, a hash and the id, nothing cut |
| ConnNames.AddressLength | SocketsOps.cc:218-247 | no formatted address is longer than 51 characters |
| ConnNames.NamesDiffer | TcpServer.cc:104-110 | with an address of at most 51 characters the buffer cuts no digit of any int id, so names differ |
| ConnNames.NamesUnique | TcpServer.cc:99-110 | connections of one server never share a name, whatever its address |
| Teardown.AssertsHoldIff | TcpServer.cc:158-171 | in any interleaving of the loops with any calls of user code an assert fails exactly on a double close, a close of a connection that is not up, or a destruction after a last startRead; only the first is left where startRead was never called while not up; every erase removes exactly the connection's own entry; destruction runs on a down connection outside dispatch |
| Teardown.ConnectionLifecycle | TcpServer.cc:99-171 | over every run a connection goes up once, down once, leaves the map once and is destroyed once, in this order; what is to come is exactly what is queued; once down its interest is that of the last read toggle; once destroyed it is off the poller exactly if no read toggle took effect since |
| Teardown.StepKeepsInv | TcpConnection.cc:298-443 | a step passes the asserts exactly if it is none of those, and then keeps the invariant |
| Teardown.RunKeepsInv | TcpServer.cc:99-171 | the same for whole runs |
| Teardown.IdsAreConsecutive | TcpServer.cc:104-110 | ids are given out consecutively from 1, one to each accepted connection |
| Teardown.AcceptEffect | TcpServer.cc:99-148 | an accepted connection is in the map, on the loop chosen, and up at once exactly on the server's own loop |
| Teardown.ForceCloseQueued | TcpConnection.cc:243-251 | a forced close is queued for each forceClose on a connection that is up, for no other reason, and runs once |
| Teardown.ForceCloseCloses | TcpConnection.cc:265-273 | when it runs, the connection is down |
| Teardown.ToggleRegisters | TcpConnection.cc:303-326 | a call on a destroyed connection puts its channel back on the poller exactly if it is a startRead or stopRead that takes effect |
| Teardown.DestroyedButRegistered | Channel.cc:38-46 | for startRead and for stopRead, a run after which a destroyed connection is registered |
| Teardown.ClosedAgain | TcpConnection.cc:368-372 | a run in which an end of file reaches a connection that is down and fails the assert, without POLLHUP |
| Teardown.DestroyedWhileReading | TcpConnection.cc:342-354 | a run in which connectDestroyed finds read interest |
| TcpConnectionImpl.Channel.Remove | Channel.cc:63-69 | a channel without interest is unregistered |
| TcpConnectionImpl.TcpConnection.SendMessage | TcpConnection.cc:97-114 | on the loop thread writes or buffers, on another thread queues, and nothing unless connected |
| TcpConnectionImpl.TcpConnection.RunFunctor | TcpConnection.cc:105-206 | the oldest queued send or shutdown takes its step on the loop |
| TcpConnectionImpl.TcpConnection.WriteOrBuffer | TcpConnection.cc:142-195 | direct write, notification, fault and buffering as specified |
| TcpConnectionImpl.TcpConnection.RequestShutdown | TcpConnection.cc:197-206 | the state changes at once on any thread; the half-close happens now or as a functor |
| TcpConnectionImpl.TcpConnection.RequestForceClose | TcpConnection.cc:243-251 | a live connection starts disconnecting and a forced close is queued |
| TcpConnectionImpl.TcpConnection.ForceCloseNow | TcpConnection.cc:265-273 | closes a connection that is still live |
| TcpConnectionImpl.TcpConnection.ConnectDestroyed | TcpConnection.cc:342-354 | disconnects a connection still up and unregisters its channel |
| TcpConnectionImpl.TcpConnection.HandleRead | TcpConnection.cc:357-379 | the callback's calls, whatever they are, the close or nothing, as a run of steps |
| TcpConnectionImpl.TcpConnection.OnWritableEvent | TcpConnection.cc:382-424 | writes a prefix of the buffer, and on the last byte stops watching, notifies and half-closes if disconnecting |
| TcpConnectionImpl.TcpConnection.HandleEvent | Channel.cc:89-120 | on a connection in any state, unless the assert fails, the handlers run in the source's order and have the effect of one event |
| TcpServerImpl.TcpServer.constructor | TcpServer.cc:24-46 | a server at any address starts in a state that satisfies the invariant |
| TcpServerImpl.TcpServer.NewConnection | TcpServer.cc:99-148 | takes the accept step; the id is new and no other connection loses its map entry |
| TcpServerImpl.TcpServer.Erase | TcpServer.cc:164 | returns how many entries it removed |
| TcpServerImpl.TcpServer.RemoveConnectionInLoop | TcpServer.cc:158-171 | the asserted count is 1 and the step is taken |
| TcpServerImpl.TcpServer.RemoveConnection | TcpServer.cc:151-156 | erases at once on the server's loop, queues otherwise |
| Dispatch.EveryNotePops | memcached.c:183-194 | a worker's queue holds one item per unread 'c', plus the dispatch under way, plus the failed writes, less what misreads took; without misreads every 'c' pops the oldest item given to the worker |
| Dispatch.HandoffInOrder | memcached.c:176-213 | each worker takes the items of its turns in order; when idle it has taken all of them exactly if misreads balance failed writes and wasted bytes |
| Dispatch.NoMisreads | memcached.c:183-194 | without failed reads nothing is taken early and no 'c' is wasted |
| Dispatch.TotalsDifferByAtMostOne | memcached.c:452-459 | per-worker totals differ by at most one over every run |
| Dispatch.FailedAllocationTakesNoTurn | memcached.c:443-459 | the items dispatched are those with memory, and the next turn depends on their number only |
| Dispatch.OneWorkerEach | memcached.c:454-467 | every dispatched item has exactly one place among all workers |
| Dispatch.ShareIsEveryNth | memcached.c:454 | the exact size of a worker's share, and that it is every n-th item from the worker's first turn on |
| Dispatch.StepKeepsInv | memcached.c:176-476 | every step keeps queue, pipe and rotation in agreement |
| Dispatch.ClosedIsGivenUp | memcached.c:446-451 | the descriptors closed are exactly, in order, those without memory for an item and those taken for which conn_new failed |
| Dispatch.PipeIsFifo | memcached.c:184-211 | on each pipe what was read, followed by what is unread, is what was written |
| Dispatch.LockIsLastNamed | memcached.c:203-211 | a worker's lock type is the one named by the last byte of that kind it acted on, granular at first |
| DispatcherImpl.Dispatcher.PushConnection | memcached.c:440-467 | a push takes exactly one turn and keeps queues and rotation in agreement; a failed allocation closes the socket and takes none |
| DispatcherImpl.Dispatcher.DispatchConnNew | memcached.c:440-476 | push and write together |
| DispatcherImpl.Dispatcher.ThreadLibeventProcess | memcached.c:176-213 | serves at most one connection; a 'c' serves exactly one unless misreads took connections early; other bytes serve none |

## Modelling decisions

* Results of system calls, the clock, the allocator and the readiness of files are parameters of the
  steps. Reading the clock and arming the timerfd is one step.
* `ep_item_poll`, `ep_events_available` and `wake_up_locked` have no body in the file; they are taken
  as: readiness masked by the item's events, ready list nonempty or overflow chain active, and waking
  the first sleeping exclusive waiter. `ep_modify` and `ep_remove` are single steps under the mutex.
* A write after `shutdown(fd, SHUT_WR)` fails with EPIPE, as POSIX says of write(2). inet_ntop writes
  less than INET6_ADDRSTRLEN characters; the buffer an address is formatted into has any size that
  can pass the asserts of `toIp`.
* A call of send or shutdown on another thread tests and sets the state in one step. startRead and
  stopRead are steps on the loop; a call on another thread is such a step at any later time.
* Times are integer microseconds without an upper bound, intervals are real numbers, sequence numbers
  are unbounded, connection ids are bounded by INT_MAX.
* A timer id is captured when the timer is created.
* A write-complete and a high-water callback are installed and the mark is fixed.
* Sends and shutdowns posted to a connection run in the order they were queued. Its other functors may
  run in any order in the teardown model, which includes every order the loops produce.
* `last_thread` starts at any value from -1 to the last worker.

## Left out

- Nested epoll, `ep_loop_check`, `reverse_path_check`, wakeup sources, NAPI busy polling and RCU: no bodies in the file.
- The error returns of `epoll_ctl` and `epoll_wait` before they reach the eventpoll, and EP_MAX_EVENTS: they change nothing.
- Arrival order inside the overflow chain: it is a LIFO chain, so no FIFO claim is made for events that arrive during a scan.
- `TcpServer::~TcpServer` and `TcpServer::start`: the destructor would need a precondition on connections that are disconnecting.
- Races marked FIXME in the source: non-atomic `state_`, `quit()` against destruction, reading `timer->sequence()` after the handoff.
- Functor destructors at the end of `doPendingFunctors`: destruction is silent.
- Timer.restart updates in place in the source; here the timer is a value in a map from addresses, which keeps aliasing by address.
- `Buffer`, `Socket`, `SocketsOps`, `Acceptor`, `Poller`, `Endian`: byte sequences and step parameters stand for them.
- memcached `drive_machine`, `conn_new` and `main`: large parts are missing in the file.
- Logging, formatting, socket options and accessors.
- EventPollImpl.EventPoll.PollCallback: does not model that POLLFREE takes the wait entry off its queue; the runs allow later callbacks, so the theorems cover more than the source does.
