# acnet in Dafny

acnet is an actor runtime for C++20: coroutines are run by a work-stealing scheduler, actors
receive messages through mailboxes, a supervisor loads, restarts and reloads actors, and an
event bus distributes messages to subscribers. This project models its concurrent core and
proves what each part guarantees in every interleaving and over every run.

| file | part of acnet |
|---|---|
| `Words.dfy`, `Basics.dfy` | 64-bit counters, signed comparison, bit masks, rounding up to a power of two; shared types |
| `Deque.dfy`, `StrictDeque.dfy`, `DequeMachine.dfy`, `WorkStealingQueue.dfy` | the deque of a worker: protocol, strict linearization, refinement to machine words, the object |
| `DequeRuns.dfy`, `DequeBoundary.dfy` | runs of the deque put together from whole operations; runs that reach the signed limit |
| `MailQueue.dfy`, `MailQueueMachine.dfy`, `MailQueueObject.dfy` | the ring behind a mailbox, in the same three layers |
| `MailOffers.dfy` | what producers offer, and operations of the ring that nobody interrupts |
| `MailBox.dfy`, `MailBoxRuns.dfy` | the `scheduled_` protocol that puts a sleeping consumer back into the scheduler; what was sent, and runs that wake, deliver and sleep |
| `GlobalQueue.dfy`, `ActorScheduler.dfy`, `Rotation.dfy`, `Ticks.dfy` | the global queue, submission, the search for a task, its round and its tick |
| `Scheduler.dfy`, `SchedulerTasks.dfy`, `Fairness.dfy`, `SchedulerRuns.dfy` | all workers together: parking, signals, quiescence, task conservation, bounded waiting, a run that bounds the claim |
| `SchedulerSleep.dfy` | signals counted over runs, the exact wait condition, runs that sleep, wake and exit |
| `ActorManager.dfy`, `Lifecycle.dfy`, `History.dfy`, `Shutdown.dfy` | the supervisor's handlers, whole runs of it with its actors, the fate of an actor told from the messages handled, and when a shutdown can end |
| `RouteTable.dfy`, `EventBus.dfy` | subscriptions and the per-thread cache of the routing table |
| `MessageRefs.dfy`, `Messages.dfy` | reference counts across send, drop, receive and release |

## How it is modelled

A concurrent part is a transition system. A step is one atomic access, or one critical section
of a mutex, by any of an unbounded number of threads, in any order. A run is any sequence of
steps. Main results hold of every run; each comes from an inductive invariant. Beside them, runs
put together from whole operations show that what the invariants speak of is reached: workers
fall asleep, mailboxes wake, offers are accepted, messages are deleted.

The two lock-free queues are written once, over an `Arith` that is either the integers or
64-bit words. The integer version carries the invariants. A simulation lemma carries runs over
to words: of the deque exactly as long as its comparisons agree with the integers, of the mail
queue below 2^63. On top of that, `WorkStealingQueue` and `MailQueue` are classes with
the counters and the slot array as fields. Their methods are the source's code, and before each
atomic access the other threads may do anything that leaves this thread's part alone. Ghost
fields record the protocol steps taken, and validity ties the memory to them.

In the scheduler every deque is such a protocol, so a steal, a pop and a push interleave access
by access. A call of `notify_one` is a signal delivered later to any waiter, waiters may wake
without a signal, and the two loads of the size check are separate steps.

The supervisor, the event bus, messages and the global queue are classes with the source's
fields; their methods are proved to have the effect of a function on the old state, and the
lemmas are about those functions.

## Where the code does less than it says

- The comment at include/queue.h:184-185 says that `pop` still works when the counters pass the
  signed limit. It decides as the integers do if and only if no odd multiple of 2^63 lies
  between `top_` and the decremented `bottom_` (`PopBranchExact`, and `StealBranchExact` for
  `steal`), and a whole run follows the integers if and only if all its comparisons do
  (`RunSimulated`). At the limit two things go wrong, each shown by a run from the empty deque:
  with tasks on both sides of it `pop` and `steal` answer `kEmpty` (`TasksAreMissed`), and with
  an empty deque just past it `pop` returns the previous task a second time (`ATaskIsDoubled`).
  Runs of fewer than 2^63 - 1 accesses are safe (`ShortRunsAgree`).
- `steal` may answer `kEmpty` while one task is left (`EmptyStealCanMissATask`), if and only if
  the owner has lowered `bottom_` to its last task, or has won it and not returned yet
  (`EmptyStealIsHonest`). The next operation that takes anything takes that task and was in
  flight when the answer was given (`TakerWasInFlight`), so the deque is still strictly
  linearizable (`StrictlyLinearizable`), in an order that real time allows
  (`RealTimeRespected`).
- A worker may go to sleep while another one holds two tasks and nobody is going to signal
  (`TwoTasksWhilePopping`): a thief that looks at the size while the owner pops counts one task
  less. That is so if and only if the owner is popping and one task is left below
  (`SleepIsWorkConserving`), and two is the most.
- A shutdown may wait for ever. A child that is registered but neither runs nor has an exit
  notice under way is never removed (`LostForever`), and a reload under a configuration that no
  longer names the child leaves one behind (`ReloadLosesAChild`). The loop can still end if and
  only if there is no such child (`EndsExactlyIfNobodyIsLost`).
- A `MailQueue` accepts any size, but with one slot "published" and "released" are the same
  number and a message can be overwritten (`CapacityOneLosesAMessage`). All runs are in order if
  and only if the requested size is at least two (`OrderedExactlyFromTwo`).
- `Publish` overwrites the reference count, which is right if and only if the caller holds the
  only reference and there is a subscriber (`PublishBalancedExactly`). The cache never holds an
  empty list (`CacheCoherent`), so the second half always holds; the first does not for a
  receiver that publishes what came in a broadcast (`PublishBreaksTheCount`).

## Model

| member | source | states |
|---|---|---|
| `Words.BitCeilIsPow2` | include/queue.h:75-76 | Rounding a requested size up always gives a power of two. |
| `Words.MaskIsMod` | include/queue.h:147-148 | Masking with size - 1 is the remainder by the size, for every power of two and every word. |
| `Words.WordIndex` | include/queue.h:93 | Masking the stored word of any counter, wrapped or not, gives its place in the ring. |
| `Words.SignedCompareExact` | include/queue.h:186 | The exact condition under which comparing two counters after the signed cast agrees with comparing the true counters. |
| `Deque.OwnerKeepsInv` | include/queue.h:158-207 | Every atomic access of the owner, at every point of push and pop, keeps the deque invariant. |
| `Deque.ThiefKeepsInv` | include/queue.h:209-229 | Every atomic access of any thief keeps the deque invariant. |
| `Deque.StepKeepsInv` | include/queue.h:158-229 | The invariant over all program counters of the owner and of all thieves is inductive. |
| `Deque.PushRefines` | include/queue.h:158-167 | Each access of push is silent or appends exactly the pushed task; it refuses exactly when the deque is full. |
| `Deque.PopRefines` | include/queue.h:177-207 | Each access of pop is silent or removes exactly the newest task, and it answers "empty" only without tasks; a lost race for the last task loses nothing. |
| `Deque.StealTakesOldest` | include/queue.h:215-224 | A won compare-and-swap hands out exactly the oldest live task. |
| `Deque.EmptyRefines` | include/queue.h:210-229 | When a thief finds nothing, one task is left if and only if the owner is popping the last one; otherwise none. |
| `Deque.StepRefines` | include/queue.h:158-229 | Every access by anybody is silent or one operation of the sequential deque on the abstract contents, where an empty steal may leave one task. |
| `Deque.Linearizable` | include/queue.h:158-229 | Over every interleaving of one owner and any number of thieves, the answers in the order in which they are given are a run of the sequential deque, except that an empty steal may leave one task, and the contents are the replayed contents. |
| `Deque.ReplayConserves` | include/queue.h:158-229 | In any run of the sequential deque, pushed equals returned plus held, per handle. |
| `Deque.ExactlyOnce` | include/queue.h:158-229 | At every moment of every run each non-null handle was pushed as often as it was returned by pop or steal plus as often as it is held. |
| `Deque.EmptyStealIsHonest` | include/queue.h:214-228 | kEmpty from steal, over every run: a task is left if and only if the owner has lowered bottom_ to it, or has won it and not returned yet; and never more than one. |
| `StrictDeque.PlaceOrdered` | include/queue.h:158-229 | Placing each answer, early empty ones after the operation that takes the last task, keeps the placed answers a run of the strict sequential deque. |
| `StrictDeque.StrictlyLinearizable` | include/queue.h:158-229 | Over every run the answers, reordered in that way and with at most the pop in flight completed, are a run of the strict sequential deque: an empty steal finds nothing. |
| `StrictDeque.NobodyJoins` | include/queue.h:177-229 | Once the owner has lowered bottom_ to its last task, no further thief gets into a position to win it. |
| `StrictDeque.TakerWasInFlight` | include/queue.h:177-229 | After an empty answer with a task left, the next operation that takes anything takes that task and has been in flight at every moment since. |
| `StrictDeque.RealTimeRespected` | include/queue.h:158-229 | The order holds the answer of every step once, and whatever is placed before the answer of an earlier step had begun before that step: an operation that returned before another began stays before it. |
| `StrictDeque.EmptyStealCanMissATask` | include/queue.h:181-228 | A run in which a steal answers kEmpty and the deque holds a task. |
| `DequeRuns.RunsAreClosed` | include/queue.h:158-229 | What is put together from single accesses is a run. |
| `DequeRuns.PushAlone` | include/queue.h:158-167 | What an uninterrupted push does, on integers and on words. |
| `DequeRuns.StealAlone` | include/queue.h:209-224 | What an uninterrupted steal does when it compares the counters as non-empty. |
| `DequeRuns.PopNone` | include/queue.h:177-206 | What an uninterrupted pop does when it compares the counters as empty. |
| `DequeRuns.PopOne` | include/queue.h:177-201 | What it does when it compares them as more than one task. |
| `DequeRuns.PopLast` | include/queue.h:189-201 | What it does with one task. |
| `DequeMachine.PushSimulated` | include/queue.h:158-167 | push on wrapping 64-bit words takes the branches of push on integers, for counters of any size. |
| `DequeMachine.PopSimulated` | include/queue.h:177-207 | pop on words follows the integers if and only if its comparison agrees; the pre-decrement of bottom_ from 0 to all ones and the wrap-around included. |
| `DequeMachine.ThiefSimulated` | include/queue.h:209-229 | steal on words follows the integers if and only if its comparison and its compare-and-swap agree. |
| `DequeMachine.StepSimulated` | include/queue.h:158-229 | Every access on words gives the answer and the image of the state on integers if and only if its comparison agrees, for counters of any size. |
| `DequeMachine.RunSimulated` | include/queue.h:158-229 | A run on words is in step with the integers at every moment, in state and answers, if and only if all its comparisons agree. |
| `DequeMachine.ShortRunsAgree` | include/queue.h:158-229 | All comparisons agree in every run of fewer than 2^63 - 1 accesses. |
| `DequeMachine.MachineLinearizable` | include/queue.h:158-229 | As long as all comparisons agree, the answers of the 64-bit deque are those of the integer deque, strictly linearizable, and per handle pushed equals returned plus held. |
| `DequeMachine.PopBranchExact` | include/queue.h:178-186 | pop decides between empty and non-empty as the integers do if and only if no odd multiple of 2^63 lies between top_ and the decremented bottom_. |
| `DequeMachine.StealBranchExact` | include/queue.h:213-214 | The same for the comparison of steal, however old its top_ is: exactly where no such multiple lies in between or the comparison has come round to the right answer. |
| `DequeBoundary.CountersReach` | include/queue.h:158-229 | Runs from the empty deque bring the counters to any value below 2^63, with the deque empty and everybody idle. |
| `DequeBoundary.TasksAreMissed` | include/queue.h:184-206 | Two runs from the empty deque that hold two tasks across the signed limit, in which pop and steal answer kEmpty. |
| `DequeBoundary.ATaskIsDoubled` | include/queue.h:186-201 | A run from the empty deque in which a task pushed once at the signed limit is returned by two pops in a row. |
| `WorkStealingQueues.ForeignKeepsPart` | include/queue.h:158-229 | No run of the other threads touches what only this thread writes: the justification of the interference contract. |
| `WorkStealingQueues.WorkStealingQueue.constructor` | include/queue.h:151-155 | A fresh queue: null slots, zero counters, empty history. |
| `WorkStealingQueues.WorkStealingQueue.Interfere` | include/queue.h:158-229 | What may happen before an atomic access: any further accesses that leave this thread's part alone. |
| `WorkStealingQueues.WorkStealingQueue.LoadTop` | include/queue.h:183 | Atomic load of top_, taken as one protocol step after interference. |
| `WorkStealingQueues.WorkStealingQueue.LoadBottom` | include/queue.h:212 | Atomic load of bottom_, likewise. |
| `WorkStealingQueues.WorkStealingQueue.LoadSlot` | include/queue.h:215 | Atomic load of a slot under the mask, likewise. |
| `WorkStealingQueues.WorkStealingQueue.StoreBottom` | include/queue.h:181 | Atomic store of bottom_ with the value that the protocol prescribes at that point. |
| `WorkStealingQueues.WorkStealingQueue.StoreSlot` | include/queue.h:163 | Atomic store of a slot by the owner. |
| `WorkStealingQueues.WorkStealingQueue.CasTop` | include/queue.h:192-193 | Strong compare-and-swap on top_ by the owner or a thief: it wins exactly when top_ is unchanged. |
| `WorkStealingQueues.WorkStealingQueue.LastPermitted` | include/queue.h:158-229 | Whatever the object answered last, the sequential deque permits it at that moment. |
| `WorkStealingQueues.WorkStealingQueue.Push` | include/queue.h:158-167 | The code of push under interference: memory follows the protocol at each access, and its result is the last answer, permitted by the contents at that moment. |
| `WorkStealingQueues.WorkStealingQueue.PopLast` | include/queue.h:189-199 | The race for the last task and the restoring store. |
| `WorkStealingQueues.WorkStealingQueue.Pop` | include/queue.h:177-207 | The code of pop under interference, likewise; success exactly with a non-null handle. |
| `WorkStealingQueues.WorkStealingQueue.Steal` | include/queue.h:209-229 | The code of steal under interference, likewise, for all three results. |
| `MailQueue.ScanKeepsInv` | include/queue.h:91-107 | Loads of the sequence and of the write index, and failed claims, keep the ring invariant, however stale the index. |
| `MailQueue.FreeSlot` | include/queue.h:94-101 | A slot whose sequence equals the current write index is free for it. |
| `MailQueue.ClaimKeepsInv` | include/queue.h:101-105 | A won claim keeps the invariant: the position belongs to its producer alone. |
| `MailQueue.FillKeepsInv` | include/queue.h:108-109 | Writing and publishing a claimed slot keep the invariant for all other slots and producers. |
| `MailQueue.ConsumerKeepsInv` | include/queue.h:112-127 | Every access of the consumer keeps the invariant; the released slot becomes the newest free position. |
| `MailQueue.StepKeepsInv` | include/queue.h:89-136 | The invariant tying every slot sequence to the indices and to every producer in flight is inductive, for capacities of at least two. |
| `MailQueue.RejectedOnlyWhenFull` | include/queue.h:91-100 | try_enqueue refuses only if at its sequence load exactly size_ positions were claimed and not released, even with a stale write index. |
| `MailQueue.UnavailableMeansUnpublished` | include/queue.h:129-136 | A negative can_dequeue on a possibly stale read index means that the index is current and its position unpublished. |
| `MailQueue.AvailableMeansPublished` | include/queue.h:129-136 | A positive can_dequeue on the current index means that its position is published, whoever is at work. |
| `MailQueue.NoMessageIsHonest` | include/queue.h:112-121 | A failed try_dequeue: the next position is unpublished, so with no enqueue in flight everything claimed has been taken. |
| `MailQueue.NoSlotRace` | include/queue.h:108-109 | In every state of the invariant, no two threads have access to the message of the same slot. |
| `MailQueue.RefusalsAreExact` | include/queue.h:94-121 | Over every run: a refused message found exactly size_ messages claimed and not taken; a refused receive found nothing published at the next position, and nothing at all if no enqueue was in flight. |
| `MailQueue.NeverRaces` | include/queue.h:108-123 | Over every run no two threads have access to the message of the same slot. |
| `MailQueue.StepKeepsHistory` | include/queue.h:101-110 | Per producer, claims are accepted messages followed by the one still being written. |
| `MailQueue.HistoryMatchesAnswers` | include/queue.h:89-127 | Over every run, the claims of each producer are its accepted messages in its order plus the one in flight, and what was taken is what was delivered. |
| `MailQueue.DeliveredInOrder` | include/queue.h:89-127 | Every run with capacity at least two delivers every claimed position once, in claim order, hence per producer in its sending order. |
| `MailQueue.CapacityOneLosesAMessage` | include/queue.h:109-125 | A run of the one-slot queue in which a second producer overwrites a message nobody has read. |
| `MailQueue.OrderedExactlyFromTwo` | include/queue.h:74-76 | All runs deliver in claim order if and only if the requested size is at least two. |
| `MailQueue.FreeSlotsAreEmpty` | include/queue.h:122-125 | Over every run, the slots free to be claimed carry their position and no message. |
| `MailOffers.ClaimsAreOffers` | include/queue.h:89-111 | Over every run the claims of each producer are exactly the messages it has offered, in its order, without those refused and without the one it is still offering. |
| `MailOffers.OfferedInOrder` | include/queue.h:89-127 | From offer to delivery: over every run the deliveries are the claims in order, and those of each producer are a prefix of what it offered and was not refused. |
| `MailOffers.NextSlot` | include/queue.h:93-101 | The slot at the write index is free exactly if fewer than size_ positions are claimed and not released. |
| `MailOffers.EnqueueAlone` | include/queue.h:89-111 | An uninterrupted try_enqueue, from any state of the invariant, is accepted if and only if the queue is not full. |
| `MailOffers.OfferAlone` | include/queue.h:91-108 | Up to its publication it claims exactly its own message and leaves all other threads alone. |
| `MailOffers.PublishNow` | include/queue.h:109-110 | Publishing answers with acceptance and makes the position published. |
| `MailOffers.TakeAlone` | include/queue.h:112-127 | An uninterrupted try_dequeue takes the next message in claim order if it is published. |
| `MailOffers.FindNothing` | include/queue.h:112-121 | Otherwise it answers none and changes nothing. |
| `MailQueueMachine.ProducerSimulated` | include/queue.h:89-111 | try_enqueue on 64-bit words takes the branches of the integer model. |
| `MailQueueMachine.ConsumerSimulated` | include/queue.h:112-127 | The same for try_dequeue. |
| `MailQueueMachine.RunSimulated` | include/queue.h:89-136 | The same for whole runs while steps plus capacity stay below 2^63. |
| `MailQueueMachine.MachineDeliversInOrder` | include/queue.h:89-127 | The 64-bit queue delivers in claim order and per producer in sending order. |
| `MailQueueMachine.MachineIsHonest` | include/queue.h:94-135 | Both refusals of the 64-bit queue are truthful at every moment of every run: full means exactly size_ untaken claims, empty means nothing published at the next position. |
| `MailQueues.ForeignKeepsPart` | include/queue.h:89-127 | No run of the other threads touches what only this thread writes, or adds to its accesses. |
| `MailQueues.MailQueue.constructor` | include/queue.h:74-82 | Rounds the size up and numbers the slots in a loop. |
| `MailQueues.MailQueue.Interfere` | include/queue.h:89-127 | What may happen before an atomic access. |
| `MailQueues.MailQueue.LoadWriteIndex` | include/queue.h:91 | Load of the write index by a producer, as one protocol step after interference. |
| `MailQueues.MailQueue.LoadReadIndex` | include/queue.h:113 | Load of the read index by the consumer. |
| `MailQueues.MailQueue.LoadSequenceAt` | include/queue.h:93-94 | Acquire load of a slot sequence by either side. |
| `MailQueues.MailQueue.ClaimIndex` | include/queue.h:101-103 | Weak compare-and-swap on the write index: it wins if and only if the index is unchanged and it does not fail without cause. |
| `MailQueues.MailQueue.StoreMessage` | include/queue.h:108 | Plain write of the message by the producer that holds the slot. |
| `MailQueues.MailQueue.PublishSequence` | include/queue.h:109 | Release store that publishes the slot. |
| `MailQueues.MailQueue.LoadMessage` | include/queue.h:122 | Plain read of the message by the consumer. |
| `MailQueues.MailQueue.EraseMessage` | include/queue.h:123 | Plain clearing of the message. |
| `MailQueues.MailQueue.StoreReadIndex` | include/queue.h:124 | Store of the read index. |
| `MailQueues.MailQueue.ReleaseSequence` | include/queue.h:125 | Release store that frees the slot for the next round. |
| `MailQueues.MailQueue.InOrder` | include/queue.h:89-127 | With two slots or more, every object state has delivered in claim order. |
| `MailQueues.MailQueue.LastHonest` | include/queue.h:94-135 | With two slots or more, whatever the object answered last is truthful. |
| `MailQueues.MailQueue.Attempt` | include/queue.h:92-107 | One turn of the retry loop: accepted, refused, or, after two accesses or more of its own, the write index reloaded. |
| `MailQueues.MailQueue.TryEnqueue` | include/queue.h:89-111 | The retry loop under interference; acceptance and refusal are the logged answers, with two slots or more refusal is truthful and the object stays in claim order, and it gives up only after as many lost races as it was given, each of two accesses at least. |
| `MailQueues.MailQueue.TakeAt` | include/queue.h:122-126 | Takes a published message and releases its slot. |
| `MailQueues.MailQueue.Receive` | include/queue.h:112-127 | The accesses of try_dequeue under interference; its result is the logged answer. |
| `MailQueues.MailQueue.TryDequeue` | include/queue.h:112-127 | Under interference, takes a message or reports that none is published; with two slots or more it is exactly the next one in claim order, and the report is truthful. |
| `MailBox.ProducerFrame` | include/queue.h:89-111 | What an enqueue step may change of the queue as the mailbox sees it: only an accepted message makes the read position published. |
| `MailBox.OfferKeepsInv` | src/core/mail_box.cc:36-37 | The enqueue part of Send keeps the mailbox invariant. |
| `MailBox.SignalKeepsInv` | src/core/mail_box.cc:38-44 | The exchange, the load of the handle and the Enqueue keep it. |
| `MailBox.BodyKeepsInv` | include/mail_box.h:29-36 | The drain loop, await_ready and await_suspend up to the clearing exchange keep it. |
| `MailBox.TailKeepsInv` | include/mail_box.h:37-43 | The re-check after the exchange keeps it, also while another worker already runs the coroutine. |
| `MailBox.StepKeepsInv` | include/mail_box.h:27-47 | The token, consumer and wake-up invariant is inductive for any number of senders and workers. |
| `MailBox.SingleToken` | include/mail_box.h:30-43 | scheduled_ is set exactly when somebody is able to run the coroutine, that somebody is unique, and the handle is queued at most once, over every run. |
| `MailBox.NoLostWakeup` | src/core/mail_box.cc:36-50 | Whenever nobody is inside Send, await_suspend or the body and the handle is not queued, every accepted message has been delivered. |
| `MailBox.PublishedIsNoticed` | include/mail_box.h:37-43 | With the flag clear, a message published at the read position always has somebody about to notice it, even if later positions were published first. |
| `MailBox.MailboxDeliversInOrder` | src/core/mail_box.cc:28-37 | What the mailbox has delivered are its claims, in claim order, although the consumer moves between workers; that the claims are what was sent is MailBoxRuns.SentInOrder. |
| `MailBox.SendFinishes` | src/core/mail_box.cc:37-44 | Over every run a Send past its publication is out after three steps of its own, with the flag set, having queued the handle exactly if it set the flag. |
| `MailBoxRuns.QueueInside` | src/core/mail_box.cc:28-37 | The queue of every mailbox run is a run of the mail queue, on the accesses that senders and the consumer make. |
| `MailBoxRuns.SentInOrder` | src/core/mail_box.cc:28-37 | From send to delivery, over every mailbox run: the consumer has received the claims once each in claim order, those of each sender are a prefix of what it sent and was not dropped, and all it sent and was not dropped is claimed but for the one it is still sending. |
| `MailBoxRuns.ChecksAreExact` | include/mail_box.h:29-43 | Over every run await_ready goes on exactly if the next position is published; the re-check gives up exactly if that is not so and nothing has been taken since it loaded the index. |
| `MailBoxRuns.SendRun` | src/core/mail_box.cc:36-44 | An uninterrupted Send to a sleeping mailbox claims exactly its message and queues the handle. |
| `MailBoxRuns.ConsumerRun` | include/mail_box.h:29-43 | A consumer that is resumed with nobody sending takes everything and comes to sleep. |
| `MailBoxRuns.WakesDeliversSleeps` | src/core/mail_box.cc:28-50 | For any messages of any senders a run that delivers exactly them, in their order, waking the consumer each time, and ends asleep. |
| `GlobalQueue.PushBack` | include/queue.h:242-275 | The epoch is bumped exactly when somebody is notified, and that exactly when tasks were added with idle threads present. |
| `GlobalQueue.GlobalQueue.constructor` | include/queue.h:330-337 | Empty queue, epoch 0, nobody idle, not stopped. |
| `GlobalQueue.GlobalQueue.Push` | include/queue.h:242-255 | One critical section of push: the new task is last, the epoch moves and one call follows exactly if somebody is idle, the rest is unchanged. |
| `GlobalQueue.GlobalQueue.PushBatch` | include/queue.h:257-275 | The batch loop appends in order and calls as many as the smaller of tasks and idle threads; the epoch moves once exactly if it calls somebody. |
| `GlobalQueue.GlobalQueue.TryPop` | include/queue.h:278-285 | Takes the oldest task, or null. |
| `GlobalQueue.GlobalQueue.NotifyOneIdle` | include/queue.h:287-299 | Moves the epoch and calls one waiter exactly when somebody is idle. |
| `GlobalQueue.GlobalQueue.PreparePark` | include/queue.h:301-305 | Registers an idle thread and returns the current epoch. |
| `GlobalQueue.GlobalQueue.CancelPark` | include/queue.h:307-309 | Takes the registration back. |
| `GlobalQueue.GlobalQueue.ParkCheck` | include/queue.h:311-317 | One evaluation of the wait condition: leave if and only if the stop flag is set or the epoch is not the observed one; staying changes nothing. |
| `GlobalQueue.GlobalQueue.Stop` | include/queue.h:319-328 | Stops once, bumping the epoch; a second call does nothing. |
| `ActorScheduler.ActorScheduler.constructor` | src/core/actor_scheduler.cc:14-32 | Workers with empty deques and tick 0. |
| `ActorScheduler.ActorScheduler.Enqueue` | src/core/actor_scheduler.cc:45-55 | To the own deque if called from a worker with room, signalling exactly when there is a backlog; otherwise to the global queue. |
| `ActorScheduler.ActorScheduler.StealLoop` | src/core/actor_scheduler.cc:96-109 | One round from any start takes the oldest task of the first worker that has one, reporting what it leaves if that is more than one task, and finds nothing only if all are empty. |
| `ActorScheduler.ActorScheduler.TryGetTask` | src/core/actor_scheduler.cc:75-112 | Returns null if and only if there is no work; otherwise removes exactly the returned task, from the place that the order of preference names. |
| `Rotation.NextTarget` | src/core/actor_scheduler.cc:108 | Stepping the victim modulo the number of threads is the next turn of the round, and turn i is (start + i) modulo that number. |
| `Rotation.TurnOfTarget` | src/core/actor_scheduler.cc:96-108 | One round reaches every worker exactly once. |
| `Ticks.OneForcedPerPeriod` | src/core/actor_scheduler.cc:73-84 | Among any 61 consecutive searches one looks at the global queue first, also across the wrap of the 32-bit tick. |
| `Ticks.ExactlyOneForced` | src/core/actor_scheduler.cc:73-84 | And only one does, unless the counter wraps meanwhile. |
| `Ticks.ForcedAtLeast` | src/core/actor_scheduler.cc:73-84 | In 61 * p searches at least p do. |
| `Scheduler.DequeStep` | include/queue.h:158-229 | What any deque access does to the counters that the size check reads: the backlog grows only with a finished push, the top moves only with a steal or a last pop. |
| `Scheduler.OthersKeepInv` | src/core/actor_scheduler.cc:63-132 | A step that meets the guarantee keeps what every other worker relies on, including a search in progress. |
| `Scheduler.PopStepKeepsInv` | src/core/actor_scheduler.cc:79-94 | The two looks at the global queue keep the scheduler invariant. |
| `Scheduler.LocalPopKeepsInv` | src/core/actor_scheduler.cc:86-89 | Every access of the local pop keeps it. |
| `Scheduler.LocalPushKeepsInv` | src/core/actor_scheduler.cc:47 | Every access of the local push keeps it; a finished push leaves a pending size check. |
| `Scheduler.CheckStepKeepsInv` | include/queue.h:169-175 | The two loads of approx_size keep it: a signal is given up only after the backlog was seen to be small. |
| `Scheduler.NotifyStepKeepsInv` | include/queue.h:287-299 | notify_one_idle and the push to the global queue keep it. |
| `Scheduler.FailCovers` | src/core/actor_scheduler.cc:99-107 | After a steal that ended in kEmpty or kAbort the victim has at most one task or somebody has yet to signal its backlog. |
| `Scheduler.StealKeepsInv` | src/core/actor_scheduler.cc:97-109 | Every access of the steal loop keeps the invariant. |
| `Scheduler.SkipSelfKeepsInv` | src/core/actor_scheduler.cc:98 | The loop passes over its own worker. |
| `Scheduler.SearchEndKeepsInv` | src/core/actor_scheduler.cc:114-121 | After a full failed search every other worker is covered. |
| `Scheduler.ParkStepKeepsInv` | include/queue.h:311-317 | Evaluating the wait condition keeps the invariant; what it decides is SchedulerSleep.ParkIsExact. |
| `Scheduler.WakeKeepsInv` | include/queue.h:313-315 | A waiter woken by a signal, or spuriously, only checks again. |
| `Scheduler.BroadcastKeepsInv` | include/queue.h:327 | notify_all keeps the invariant. |
| `Scheduler.StepKeepsInv` | src/core/actor_scheduler.cc:45-132 | The invariant of workers, deques, global queue, wait set and pending signals is inductive. |
| `Scheduler.SleepingWorker` | include/queue.h:301-317 | Over every run idle_threads_ counts the workers between prepare_park and leaving it, and whoever waits with the current epoch sees an empty global queue and an empty own deque. |
| `Scheduler.SleepIsWorkConserving` | src/core/actor_scheduler.cc:96-121 | Over every run, after a full failed search that followed prepare_park and while the epoch stands, somebody has yet to signal each other worker, or that one holds at most two tasks, and at most one if and only if it is not popping with one task left below. |
| `Scheduler.SmallBacklog` | include/queue.h:169-175 | With a counter difference of at most one there are at most two tasks, and two if and only if the owner is popping and the difference is one. |
| `SchedulerRuns.TwoTasksWhilePopping` | src/core/actor_scheduler.cc:96-121 | A run of three workers, for any capacity from three on, in which a worker is about to wait with the current epoch, another holds two tasks, one of which it is popping, and nobody will signal. |
| `Scheduler.Quiescent` | src/core/actor_scheduler.cc:114-129 | If every worker is in the wait set and no signal is on its way, there is no task anywhere, although signals may have been absorbed by waiters that could not use them; SchedulerSleep.AllSleep and AllSleepAgain reach such states. |
| `SchedulerSleep.EpochCountsSignals` | include/queue.h:242-299 | Over every run the epoch is the number of times that work was added, or a backlog reported, while somebody was idle, plus one for the stop. |
| `SchedulerSleep.CallsAddUp` | include/queue.h:242-299 | Over every run the notify_one calls made, one per task added but no more than there were idle threads, are those that woke a waiter or found none plus those still to come. |
| `SchedulerSleep.ParkIsExact` | include/queue.h:311-317 | Over every run a worker that evaluates the wait condition with epoch e leaves, uncounting itself, if and only if the queue is stopped or the number of signals so far is not e; otherwise it is in the wait set and nothing else changes. |
| `SchedulerSleep.StopIsExact` | include/queue.h:319-328 | Over every run the flags are set exactly by their calls, nobody has exited while the scheduler runs, a worker back at its loop exits exactly if it does not, and after a delivered stop nobody is in the wait set. |
| `SchedulerSleep.AllSleep` | src/core/actor_scheduler.cc:114-121 | For any number of workers, a run from start-up in which all come to sleep with no signal on its way. |
| `SchedulerSleep.OneIsWoken` | src/core/actor_scheduler.cc:114-121 | One in which any one of them is then woken for a task. |
| `SchedulerSleep.AllSleepAgain` | src/core/actor_scheduler.cc:114-129 | One in which all sleep again after that task. |
| `SchedulerSleep.AllExit` | src/core/actor_scheduler.cc:114-132 | One in which the scheduler is stopped while all sleep, and all exit. |
| `Fairness.Fifo` | include/queue.h:278-285 | In every run of the scheduler the tasks in the global queue leave in their order. |
| `Fairness.TicksAreKept` | src/core/actor_scheduler.cc:73-84 | A worker whose ticks follow its counter makes a first look at the global queue for every search that the counter sends there. |
| `Fairness.LooksTake` | src/core/actor_scheduler.cc:79-84 | Each first look removes a task while those of the beginning last. |
| `Fairness.BoundedWaiting` | src/core/actor_scheduler.cc:73-94 | In every run of the scheduler from any state, a task with k tasks ahead has left the global queue once one worker whose ticks follow its counter has begun 61 * (k + 1) searches and is past its look, whatever everybody else does. |
| `SchedulerTasks.StepConserves` | src/core/actor_scheduler.cc:45-129 | Each step: held afterwards plus started equals held before plus submitted. |
| `SchedulerTasks.EveryTaskOnce` | src/core/actor_scheduler.cc:45-129 | Over every run each task was submitted as often as it was started plus as often as it is still in the global queue, a deque or the hands of a worker. |
| `SchedulerTasks.AsleepMeansAllStarted` | src/core/actor_scheduler.cc:114-129 | With everybody asleep and no signal on its way, every task submitted has been started. |
| `ActorManager.RelaunchLaunches` | src/core/actor_manager.cc:249-291 | Relaunching keeps old ids, gives fresh ids to new names only, and launches no id twice. |
| `ActorManager.LoadLaunches` | src/core/actor_manager.cc:111-142 | The same for loading into an empty table. |
| `ActorManager.RelaunchesExactly` | src/core/actor_manager.cc:249-291 | Relaunching launches exactly the configured modules whose libraries load, in the order of the configuration. |
| `ActorManager.LoadsExactly` | src/core/actor_manager.cc:111-142 | So does loading. |
| `ActorManager.HandleKeepsDiscipline` | src/core/actor_manager.cc:158-200 | Every handler keeps the pending sets within the children, restarts disjoint from reloads and stops, and names distinct. |
| `ActorManager.ReloadKeepsDiscipline` | src/core/actor_manager.cc:333-383 | The reload command does. |
| `ActorManager.ExitedKeepsDiscipline` | src/core/actor_manager.cc:400-435 | The exit notice does. |
| `ActorManager.ActorManager.constructor` | src/core/actor_manager.cc:69 | Empty tables. |
| `ActorManager.ActorManager.NewChild` | src/core/actor_manager.cc:130-138 | Registers and launches a child under a fresh id. |
| `ActorManager.ActorManager.LoadModules` | src/core/actor_manager.cc:111-142 | The load loop has the effect of Load on the tables and launches. |
| `ActorManager.ActorManager.FindChild` | src/core/actor_manager.cc:338-349 | The walk over the children finds a name if and only if some child has it. |
| `ActorManager.ActorManager.ReloadModule` | src/core/actor_manager.cc:202-247 | The configuration loop has the effect of ReloadOne. |
| `ActorManager.ActorManager.ReloadAllModules` | src/core/actor_manager.cc:249-291 | The nested loops have the effect of Relaunch. |
| `ActorManager.ActorManager.SearchModuleAndRemove` | src/core/actor_manager.cc:333-359 | Marks what is to be reloaded; the stop message is a broadcast of as many references as sends, or of one that is released if there are none. |
| `ActorManager.ActorManager.MarkAll` | src/core/actor_manager.cc:338-342 | Marks every child once, one send each. |
| `ActorManager.ActorManager.StopAll` | src/core/actor_manager.cc:366-370 | Puts every child into the stop set and out of the restart set, one send each. |
| `ActorManager.ActorManager.HandleCmdExit` | src/core/actor_manager.cc:361-372 | Ends exactly without children; otherwise a broadcast of one reference per child. |
| `ActorManager.ActorManager.HandleCmdReload` | src/core/actor_manager.cc:374-383 | Effect of a reload command, including a failed configuration update. |
| `ActorManager.ActorManager.HandleCmdRemove` | src/core/actor_manager.cc:385-398 | Effect of a remove command, including an unknown name. |
| `ActorManager.ActorManager.HandleEventExit` | src/core/actor_manager.cc:400-435 | Effect of an exit notice in all branches, with a shutdown request possible between the two reads of is_running_; ends exactly when it removes the last child and is_running_ is false by then. |
| `ActorManager.ActorManager.HandleEventCrash` | src/core/actor_manager.cc:437-449 | Effect of a crash report, including an unknown sender; over whole runs, when it leads to a restart is History.ExitFate. |
| `ActorManager.ActorManager.Dispatch` | src/core/actor_manager.cc:163-194 | One message has the effect of Handle and keeps the discipline. |
| `ActorManager.ActorManager.RunCoroutine` | src/core/actor_manager.cc:158-200 | The dispatch loop handles messages in order up to the first one that ends it, and ends only without children. |
| `Lifecycle.LastExitFindsAllDead` | src/core/actor_manager.cc:412-416 | When the last exit of a reload-all is handled, no child has a live coroutine or a notice outstanding. |
| `Lifecycle.ReloadKeepsInv` | src/core/actor_manager.cc:333-383 | Reload commands keep the lifecycle invariant, overlapping ones included. |
| `Lifecycle.ExitedKeepsInv` | src/core/actor_manager.cc:400-435 | Exit notices keep it. |
| `Lifecycle.NextKeepsInv` | src/core/actor_manager.cc:158-200 | Every message, actor end (its notice delivered or dropped) and shutdown request keeps it. |
| `Lifecycle.OneIncarnation` | src/core/actor_manager.cc:249-291 | Over every run each id has at most one live coroutine or unhandled exit notice, and whoever has one is registered. |
| `Lifecycle.AlwaysDisciplined` | src/core/actor_manager.cc:333-449 | Over every run the pending sets and names stay disciplined. |
| `Lifecycle.LatchIsSafe` | src/core/actor_manager.cc:164-187 | Over every run the latch is counted down at most once, and then no coroutine is live and no notice outstanding. |
| `Lifecycle.ShutdownStep` | src/core/actor_manager.cc:400-435 | Each step of a shutdown removes exactly the child whose notice it handles, launches nobody, and ends the loop exactly with the last child or at an exit command without children. |
| `Lifecycle.ShutdownEndsWithLastChild` | src/core/actor_manager.cc:325-435 | During a shutdown without further reload commands the children only shrink, one per handled notice, and the loop ends exactly with the last one, in whatever order notices come. |
| `History.MarksArePending` | src/core/actor_manager.cc:333-449 | Over every run and for every id, the pending sets are what the handled messages say: an order to reload or stop overrides a crash, a crash counts for a child not to be reloaded or stopped while no shutdown is requested, an exit notice settles everything. |
| `History.SettingsFollow` | src/core/actor_manager.cc:374-383 | Over every run the configuration and the flag for reloading all are those of the last readable reload command, and is_running_ is the absence of a shutdown request. |
| `History.ExitFate` | src/core/actor_manager.cc:400-449 | Over every run the messages handled before decide what an exit notice does: reload alone under the old id if configured and loadable, reload all loadable modules once nobody else is waited for, restart if and only if a crash is still marked and no shutdown requested, or removal. |
| `History.ReloadStarts` | src/core/actor_manager.cc:374-383 | What a reload command launches at once: a configured and loadable module that no child has, or all loadable ones without children, else nothing. |
| `History.StartUp` | src/core/actor_manager.cc:111-142 | Start-up launches exactly the loadable modules. |
| `Shutdown.LostForever` | src/core/actor_manager.cc:400-435 | A registered child with neither coroutine nor notice stays registered through every shutdown without a further reload command, and the loop does not end. |
| `Shutdown.EndsExactlyIfNobodyIsLost` | src/core/actor_manager.cc:361-435 | Some continuation of a shutdown without a further reload command ends the loop if and only if there is no such child. |
| `Shutdown.ReloadLosesAChild` | src/core/actor_manager.cc:202-247 | A run from start-up to such a child: reloaded under a configuration that no longer names it. |
| `RouteTable.SwapRemoveDropsOne` | src/core/event_bus.cc:28-29 | Overwriting with the last entry and dropping the last removes exactly that one subscription and leaves the others in place. |
| `RouteTable.SubscribeMeaning` | src/core/event_bus.cc:12-18 | Subscribing adds one subscription, behind those of its type, and touches no other type. |
| `RouteTable.UnsubscribeMeaning` | src/core/event_bus.cc:20-38 | Unsubscribing removes one subscription if there is one, touches no other type and leaves no empty list. |
| `EventBus.TableMeaning` | src/core/event_bus.cc:12-38 | The table after any changes holds, per type, exactly the subscriptions counted from the changes, and no empty list. |
| `EventBus.CountKeepsInv` | src/core/event_bus.cc:17-30 | Creating a version keeps every cached copy the table of its own version. |
| `EventBus.StepKeepsInv` | src/core/event_bus.cc:12-60 | The lock, table and cache invariant is inductive for any number of threads. |
| `EventBus.CacheCoherent` | src/core/event_bus.cc:56-60 | Over every run each thread's copy is the shared table as of its version, and no stored list is empty. |
| `EventBus.DeliveryIsExact` | src/core/event_bus.cc:40-54 | Over every run, between two moments: a thread that loads the version at step i delivers at its next delivery j to exactly the subscriptions left by the first changes up to one that is no earlier than all those counted by step i and no later than those of step j. |
| `EventBus.CallAlone` | src/core/event_bus.cc:12-38 | An uninterrupted Subscribe or Unsubscribe takes effect as exactly one change, or as none if it removes who is not subscribed. |
| `EventBus.PublishAlone` | src/core/event_bus.cc:40-54 | An uninterrupted publication delivers its type to exactly the present subscriptions. |
| `MessageRefs.StepKeepsBalance` | include/event_message.h:78-87 | Each creation, broadcast, publication, send, drop, receive and release keeps the count equal to the copies. |
| `MessageRefs.AlwaysBalanced` | include/event_message.h:78-87 | Over every run the count is the sends not made plus copies in mailboxes plus copies held, and the message is deleted exactly at zero. |
| `MessageRefs.NeverUsedAfterFree` | src/core/mail_box.cc:36-50 | Whoever is able to act on a message acts on one that exists. |
| `MessageRefs.FreedForGood` | include/event_message.h:84-86 | A deleted message has no copies, stays deleted and is deleted once. |
| `MessageRefs.PublishBalancedExactly` | src/core/event_bus.cc:45-50 | Overwriting the count is right if and only if the publisher holds the only reference and there is a subscriber. |
| `MessageRefs.PublishBreaksTheCount` | src/core/event_bus.cc:45-50 | A receiver of a broadcast that publishes what it has received leaves two copies and a count of one. |
| `MessageRefs.PublicationEnds` | src/core/event_bus.cc:45-50 | A publication and its sends end with one reference per accepting mailbox, and with the message deleted exactly if there is none. |
| `MessageRefs.PublishEnds` | src/core/event_bus.cc:40-54 | The same for a whole call of Publish, which releases the message if nobody subscribes. |
| `MessageRefs.WholeLife` | include/event_message.h:78-87 | Nothing leaks: a message made, published to any subscribers and released by those that accepted it is deleted after exactly the last of these releases. |
| `MessageRefs.BroadcastEnds` | src/core/actor_manager.cc:361-372 | The same for a stop message and its sends. |
| `Messages.EventMessage.constructor` | include/event_message.h:55-56 | A message with the given count. |
| `Messages.EventMessage.Release` | include/event_message.h:84-86 | Decrements, and deletes exactly at the last reference. |
| `Messages.EventMessage.ReleaseAt` | include/event_message.h:78-87 | Clears the caller's reference and releases the message; a null reference is left alone. |
| `Messages.MailBox.constructor` | src/core/mail_box.cc:8 | An empty mailbox. |
| `Messages.MailBox.Send` | src/core/mail_box.cc:36-50 | Takes the message with its reference, or drops both and counts the drop. |
| `Messages.MailBox.TryReceive` | src/core/mail_box.cc:28-34 | Hands out the oldest message and counts it, or answers none. |
| `Messages.MailBox.Drain` | src/core/mail_box.cc:10-15 | The destructor loop releases each message as often as it is queued and deletes exactly those nobody else refers to. |
| `Messages.ActorEventBus.constructor` | src/core/event_bus.cc:7-10 | Empty tables at version 0. |
| `Messages.ActorEventBus.Subscribe` | src/core/event_bus.cc:12-18 | Appends to the list and creates a version. |
| `Messages.ActorEventBus.Unsubscribe` | src/core/event_bus.cc:20-38 | The search loop removes the first subscription of the mailbox; a version is created exactly if there was one. |
| `Messages.ActorEventBus.SyncRouteTable` | src/core/event_bus.cc:56-60 | Copies table and version. |
| `Messages.ActorEventBus.Publish` | src/core/event_bus.cc:40-54 | A publication goes to all present subscriptions: each send is accepted if and only if its mailbox has room at its turn, each mailbox gains one copy per acceptance and one discard per refusal, the count is the number of acceptances, the message is deleted exactly if there is none, and the reference-count protocol says the same. |
| `Messages.SendToAll` | src/core/event_bus.cc:48-50 | The send loop: send i is accepted if and only if the mailbox has room after the earlier sends to it; every mailbox then holds exactly its old queue and its accepted copies, and has discarded exactly its refusals. |

## Left out

- Weak memory orderings and fences: accesses interleave under sequential consistency.
- Coroutine frames, promises and symmetric transfer (include/task.h): a coroutine is a handle and a place in the protocol.
- Mailboxes whose consumer is destroyed and restarted, or was never armed (the children's): the mailbox results are for one armed consumer that does not terminate, with no send before it is armed.
- Counters of dropped and received messages inside the mailbox protocol: they are fields of the class `Messages.MailBox` only.
- The body of an actor: an actor runs, may send crash reports, ends and posts one exit notice, which may be dropped.
- Loading of libraries and reading of the configuration: which libraries load is an arbitrary set per message, and configured names are distinct.
- Start-up: the modules are loaded before the first message is handled.
- Liveness of reload and shutdown beyond what `Shutdown` states: that a shutdown can end does not say that it does; notices may be dropped or stay unhandled.
- Null handles in the scheduler: tasks submitted are non-null; the deque alone is modelled with null handles too.
- Scheduler on machine words: the deques inside the scheduler protocol count in integers; the epoch and the idle count are integers too.
- Threads, affinity, barriers, logging, program start, and `SPSCQueue`, which is not instantiated.
- `EnqueueBatch`: it is `push_batch` (`GlobalQueue.GlobalQueue.PushBatch`) and a step of the scheduler protocol, and has no method of its own.
- WorkStealingQueues.WorkStealingQueue.Interfere: its body does nothing; callers use its contract, which `ForeignKeepsPart` shows to allow every run of the other threads within the bound of 2^63 - 1 accesses.
- MailQueues.MailQueue.Interfere: the same, with the bound of 2^63 on accesses plus capacity.
- MailQueues.MailQueue.constructor: asks for a size below 2^62, so that the rounded size is a word.
- MailQueues.MailQueue.TryEnqueue: gives up after a given number of lost races, because the retry loop of the source need not terminate; the number is arbitrary within the bound.
- ActorScheduler.ActorScheduler.TryGetTask: runs without interference, on the contents of the deques; its interleavings are those of `Scheduler`, where the tick and the first victim are arbitrary.
- ActorScheduler.ActorScheduler.Enqueue: runs without interference, as above.
- ActorScheduler.ActorScheduler.StealLoop: runs without interference, so that no steal aborts; steals that abort are in `Scheduler`.
- ActorManager.ActorManager.RunCoroutine: handles a given sequence of messages; suspending and being woken for more is `MailBox`, and messages that arrive one by one are in `Lifecycle`.
- Fairness.BoundedWaiting: only the one worker's ticks follow its counter; the tick is not part of the scheduler's state but of the labels.
- Messages.MailBox.Send: waking the consumer is not part of it; that is `MailBox`.
- Messages.ActorEventBus.Publish: one thread's view without interference; interleavings are those of `EventBus` and `MessageRefs`.
- Deque.Linearizable: the sequential deque here lets a steal find nothing with one task left; the strict result is `StrictDeque.StrictlyLinearizable`.
