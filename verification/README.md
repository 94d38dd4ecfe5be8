# libneoos, verified

A Dafny model of the concurrent and distributed parts of libneoos, the C library of NeoOS, with
proofs of what they promise.

* **Locks** (`Mutex`, `Condvar`, `Semaphore`). Any number of threads interleave one atomic access at
  a time. A sleeper can be woken, woken for no reason, interrupted or, in a timed wait, timed out. The
  condition variable runs on the mutex model itself. The results hold in every state of every run.
* **Thread tables** (`ThreadStart`, `PthreadJoin`, `PthreadTlsFailure`). The slot tables that hand a start
  routine to a new thread and a return value to a joiner, under any number of concurrent creates, exits
  and joins.
* **Their calls** (`MutexCalls`, `CondvarCalls`, `SemaphoreCalls`, `ThreadStartCalls`, `PthreadCalls`). The
  same machines seen by one caller: whatever other threads do between a call and its return, what the
  call answers and what it has done by then; and that calls keep moving.
* **MPI** (`MpiTags`, `Mailbox`, `PendingPool`, `ReduceOps`, `Collectives`, `CollectivesNetwork`,
  `CollectivesProofs`, `CollectivesValues`, `CollectivesWindow`, `CollectivesSkips`, `CollectivesProgress`,
  `Rendezvous`, `RendezvousProgress`).
  Ranks over a network that loses, delays and reorders frames. `Mailbox` says what receive matching
  means, `PendingPool` proves that the array pool and its linked list do that, and the `Collectives`
  modules prove what barrier, broadcast, reduce and allreduce deliver, also when calls fail and the
  program goes on, and that without failures they never get stuck.
* **Smaller cores** (`Tls`, `Dirent`, `DottedQuad`). Placement of a thread's TLS block, the directory
  iterator, and the IPv4 address parser and printer.

`Counting`, `Options`, `Words` and `MpiCodes` hold what several modules share.

`dafny verify dfyconfig.toml` checks everything.

## How the pieces fit

A transition system is a `State`, an `Action` and a relation `Step`; a run is a sequence of states
that starts in `Init` and moves by `Step`. Each module proves its invariant for one step by small
lemmas (what a step leaves alone, what the stepping thread's own entry becomes) and lifts it to every
run with `RunKeepsInv`; the theorems are read off the invariant. The mutex and the
semaphore are also tied to simple reference machines: a lock with one owner, and a counter.

The call modules label the steps of a run with the thread and its action. A theorem about a call starts
at the step that makes the call and ends at the step that returns from it. The progress theorems say that a
step is possible and that every such step lowers a measure, so that a schedule which goes on taking
steps gets to the end.

The collectives treat the network together with a rank's unexpected-message queue as one bag from
which a receive takes some matching message. `CollectivesNetwork.ReceiveIsNetworkStep` proves that
view right: a receive of `Mailbox`, the function that `PendingPool` implements, is a move of
`Collectives` after steps that lose what a full queue dropped.

Tags and addresses are numbers in these models. `MpiTags.TagsAgree` and `DottedQuad.HtonlAgrees` equate
them with the shifts and masks of the source on 32-bit words.

## Where the code and its comments differ

* src/mpi.c:37-40 says MPI_Send rejects tags above MPI_TAG_UB. The condition at src/mpi.c:335 rejects
  only negative tags (`MpiTags.SendRefusesOnlyNegativeTags`). The collective results therefore assume
  that clients send tags of at most 0x3FFFFFFF.
* src/mpi.c:347 lets a client receive with MPI_ANY_TAG take a collective's message
  (`Mailbox.OnlyAnyTagTakesLibraryTraffic`). The collective results assume explicit client tags.
* A 24-bit sequence number cannot tell collectives 2^24 apart from each other.
  `CollectivesProofs.TagPicksTheMessage` says exactly when a message that a receive can match is the
  one it is for: its collective is less than 2^24 away and its sender has left out as many calls as
  the receiver, modulo 2^24. The theorems are about the runs in which that holds of every message that
  could be matched (`NoFalseMatch`). `CollectivesSkips.StoppingRunIsRun` shows that this covers all
  programs that make no collective call after a failed one while counters are less than 2^24 apart.
  `CollectivesWindow.RunAheadIsCountedTwice` is a run with a message from 2^24 ahead, in which the root
  counts one rank twice.
* MPI_Allreduce leaves out its broadcast when its reduction fails (src/mpi.c:607-608), so the counter of
  that rank stays one behind. `CollectivesSkips.FailedAllreduceMisleads` is a run in which a program goes
  on after such a failure and another rank's MPI_Allreduce succeeds with the data of the next broadcast;
  `CollectivesSkips.SameCallSameTag` says exactly when two ranks in the same call still use the same tag.
* The condition variable compares 32-bit sequence numbers. `Condvar.WrappedSequenceMissesBroadcasts`
  is a run in which 2^32 broadcasts leave a waiter asleep. `Condvar.ComparisonMissesExactly` says exactly
  when a comparison misses a broadcast, and the broadcast theorems assume just that it does not.
* sem_post does not check for overflow (`Semaphore.PostOverflows`). The value is the mathematical
  count if and only if that count is at most 2^31-1. On a word that has become negative sem_wait goes
  round its loop without sleeping (`SemaphoreCalls.NegativeValueSpins`).
* src/mpi.c:247-248 says a single GO is enough. `RendezvousProgress.CompletionIffNoGoIsLost` says exactly when:
  a rank whose GO is lost never leaves MPI_Init, and otherwise all ranks can.
* align_up raises alignments below 8 to 8. The block then starts where variant II of "ELF Handling For
  Thread-Local Storage" puts it if and only if the size rounded to the segment's own alignment is a
  multiple of 8 (`Tls.VariantTwoOffset`).
* A pthread whose TLS setup fails keeps its slot for ever (`PthreadTlsFailure.SlotIsLostForEver`), and
  joining it delivers NULL: `PthreadTlsFailure.FailedTlsIsJoinedInVain` is such a run, and
  `PthreadJoin.JoinDeliversTheValue` says exactly what every join delivers.

## Model

| member | source | states |
|---|---|---|
| `Mutex.MutualExclusion` | src/pthread.c:39-80 | in every state of every run the word is 0, 1 or 2, it is 0 exactly when nobody holds the mutex (an unlocker before its store still holds it), and at most one thread holds it |
| `Mutex.NoWakeupIsLost` | src/pthread.c:49-80 | a sleeping thread always has word 2, an unlocker that has yet to wake, or an awake locker about to exchange in 2; when all awake threads are idle, somebody holds the mutex that sleepers wait for |
| `Mutex.FreeMutexIsTaken` | src/pthread.c:49-80 | a free mutex with a sleeper can change hands within two internal steps, without any new call |
| `Mutex.StepRefinesLock` | src/pthread.c:39-80 | every step is a step of a lock with one owner: nothing changes, a free lock goes to the stepping thread, or its owner frees it |
| `Mutex.StepMovesOneClaim` | src/pthread.c:39-80 | one step moves only the stepping thread's claim, which it gains only from word 0 |
| `Mutex.StepKeepsExclusive` | src/pthread.c:39-80 | the ownership invariant is inductive, trylock and the 2-1-0 unlock window included |
| `Mutex.StepKeepsNoLostWake` | src/pthread.c:49-80 | the no-lost-wakeup invariant is inductive, spurious wakes and interrupts included |
| `Mutex.StepBurnsFuel` | src/pthread.c:49-80 | every step that is not a new call or a disturbance lowers a measure, and a disturbance raises it by at most 2 |
| `Mutex.CallsSettle` | src/pthread.c:49-80 | without new calls, a run has at most its fuel plus three steps per disturbance; while a thread is busy some step is possible, and when none is busy a sleeper implies a holder |
| `MutexCalls.TryLockAnswers` | src/pthread.c:39-47 | trylock comes back owning the mutex if and only if nobody owned it at its access, leaves the word alone otherwise, and never sleeps |
| `MutexCalls.LockReturnsOwning` | src/pthread.c:49-69 | from its call to its return, whatever others do: lock returns only as the one owner, having found the mutex unowned |
| `MutexCalls.UnlockReleases` | src/pthread.c:71-80 | unlock returns only having given the mutex up |
| `MutexCalls.WakeTakesOne` | src/pthread.c:71-80 | the wake of an unlock takes exactly one sleeper out of the queue, or touches nothing if there is none |
| `MutexCalls.UncontendedNeedsNoKernel` | src/pthread.c:49-80 | a thread that has the mutex to itself never makes a system call and never leaves the word at 2 |
| `Semaphore.CountIsConserved` | src/semaphore.c:5-87 | initial value plus posts minus successful waits is never negative, and the value is that count if and only if the count is at most 2^31-1 |
| `Semaphore.NoPostIsLost` | src/semaphore.c:46-87 | while a thread sleeps, the value is at most the number of posters yet to wake plus awake waiters; so a quiescent state with a sleeper has count 0 |
| `Semaphore.PostOverflows` | src/semaphore.c:75-87 | a run of one post on 2^31-1 leaves the value at -2^31 |
| `Semaphore.StepRefinesCounter` | src/semaphore.c:23-87 | while the count fits, each step leaves the counter, adds one or takes one from a positive value; trywait gives up and wait sleeps only at value 0 |
| `Semaphore.StepKeepsConserved` | src/semaphore.c:23-87 | conservation is inductive across stale reads and failed compare-exchanges |
| `Semaphore.StepKeepsNoLostPost` | src/semaphore.c:46-87 | the no-lost-post bound is inductive across timeouts, interrupts, spurious wakes and trywait |
| `SemaphoreCalls.CallsAnswer` | src/semaphore.c:23-87 | from call to return: 0 from a wait or trywait means that it took exactly one unit, -EAGAIN or -ETIMEDOUT that it took none, and a post has added one; trywait gives up only on no unit, and only a timed wait that slept times out |
| `SemaphoreCalls.SuccessesAreTakes` | src/semaphore.c:23-66 | in every run, successful returns of wait and trywait together are the units taken |
| `SemaphoreCalls.CallsSettle` | src/semaphore.c:23-87 | without new calls, and while the count fits, a run takes at most a bounded number of steps; while somebody inside has a move left a step is possible, and when nobody has, a sleeper implies count 0 |
| `SemaphoreCalls.NegativeValueSpins` | src/semaphore.c:46-66 | on a negative value a wait is back where it was after two steps |
| `Condvar.BroadcastMissesNobody` | src/pthread.c:111-156 | after a broadcast returns, nobody sleeps in a wait whose read of the sequence number came before that broadcast's bump, in every run whose comparisons miss no broadcast |
| `Condvar.PredicateAndBroadcastWakeAll` | src/pthread.c:111-156 | once a predicate is set for good under the mutex and a later broadcast has returned, no waiter is asleep |
| `Condvar.WaitReturnsHolding` | src/pthread.c:111-130 | every wait, woken, interrupted or timed out, returns as the only holder of the mutex |
| `Condvar.OwnedSignalWakesAnEarlierWaiter` | src/pthread.c:111-147 | a signal sent while holding the mutex finds only sleepers whose wait began before its bump |
| `Condvar.ComparisonIsModular` | src/pthread.c:111-130 | a waiter goes to sleep if and only if the bumps since its read are a multiple of 2^32 |
| `Condvar.WrappedSequenceMissesBroadcasts` | src/pthread.c:111-156 | a run in which 2^32 completed broadcasts leave an earlier waiter asleep |
| `Condvar.StepIsMutexStep` | src/pthread.c:111-156 | every step leaves the mutex alone or is a step of the mutex model, whose invariant it keeps |
| `Condvar.StepKeepsNobodyMissed` | src/pthread.c:111-156 | the invariant behind the broadcast theorem is inductive while comparisons miss no broadcast |
| `Condvar.ComparisonMissesExactly` | src/pthread.c:111-130 | the kernel's comparison leaves nobody missed if and only if no broadcast has returned since the waiter's read or the bumps since are no multiple of 2^32 |
| `Condvar.FewBumpsAreNoticed` | src/pthread.c:111-130 | fewer than 2^32 bumps during each wait are enough for that |
| `CondvarCalls.WaitAnswers` | src/pthread.c:111-140 | from call to return: -ETIMEDOUT exactly if the wait timed out, which only a timed wait does, 0 otherwise, and the caller owns the mutex alone |
| `CondvarCalls.SignalWakesExactlyOne` | src/pthread.c:142-147 | from call to return: the sequence number has moved, and if anybody sleeps at the wake exactly one sleeper is woken and nobody else is touched; with the mutex owned, one that began to wait before the bump |
| `CondvarCalls.BroadcastWakesEveryone` | src/pthread.c:149-156 | from call to return: the sequence number has moved, everybody asleep at the wake is woken, and nobody else is touched |
| `CondvarCalls.PredicateThenBroadcastWakeAll` | src/pthread.c:111-156 | a predicate set for good under the mutex, then a broadcast called and returned from: nobody sleeps in any later state |
| `CondvarCalls.CallsGoForward` | src/pthread.c:111-156 | every own step of a call leads on towards its return, and no other thread's step leads it back |
| `CondvarCalls.CallersMove` | src/pthread.c:111-156 | in every reachable state a thread inside a call can take its next step unless it sleeps on the condition variable or the mutex |
| `ThreadStart.SlotsAreOwnedAlone` | src/thread.c:32-75 | a slot is marked in use exactly when some creator or new thread holds it, and two threads never hold the same slot |
| `ThreadStart.ThreadRunsItsOwnWork` | src/thread.c:32-75 | a thread past its TLS setup runs exactly the function and argument of the thread_create that made it |
| `ThreadStart.StepKeepsInv` | src/thread.c:32-75 | the ownership invariant is inductive under any number of concurrent creations |
| `ThreadStartCalls.CreateAnswers` | src/thread.c:52-75 | thread_create answers 0 with the thread this call made, -EAGAIN after seeing every slot in use, or the code of a failed system call; without 0 it made none |
| `ThreadStartCalls.ThreadRunsWhatItWasGiven` | src/thread.c:32-75 | from the call on: the thread it makes runs exactly the function and argument passed to that call, whenever it runs |
| `ThreadStartCalls.StartsGoOn` | src/thread.c:32-75 | a thread that is starting or inside thread_create always has a step and is through after at most as many own steps as there are slots and nine |
| `ThreadStartCalls.ExitCodeTells` | src/thread.c:32-50 | a thread that ended with 127 never ran its function, and one that ended with 0 did |
| `PthreadJoin.JoinDeliversTheValue` | src/pthread.c:184-266 | a completed join's target has ended, and the join stored the value it returned or passed to pthread_exit, or NULL for a thread without a recorded one; its slot is freed exactly in the first case |
| `PthreadJoin.UnjoinedThreadsHaveTheirOwnSlots` | src/pthread.c:170-232 | two unjoined threads never share a slot, and both slots are in use |
| `PthreadJoin.ThreadRunsItsStartRoutine` | src/pthread.c:191-232 | a running pthread runs the start routine and argument of its pthread_create |
| `PthreadJoin.FailedTlsKeepsItsSlot` | src/pthread.c:191-232 | a pthread whose TLS setup failed leaves its slot in use without a tid |
| `PthreadTlsFailure.SlotIsLostForEver` | src/pthread.c:191-254 | from the failure on, in every later state, that slot is in use without a tid |
| `PthreadTlsFailure.FailedTlsIsJoinedInVain` | src/pthread.c:203-254 | for a table of any size, a run that creates such a thread and joins it: the join delivers NULL and the slot is not given back |
| `PthreadJoin.ScanFindsTheSlot` | src/pthread.c:184-189 | a joiner's scan stops exactly at its target's slot, and one that finds nothing was looking for a thread without a value |
| `PthreadJoin.StepKeepsInv` | src/pthread.c:184-266 | the invariant tying threads, slots, the table lock and completed joins is inductive |
| `PthreadCalls.CreateAnswers` | src/pthread.c:203-232 | pthread_create answers 0 with the one thread it made, -EAGAIN on a full table, or the code of a failed thread_create; only with 0 is a thread made |
| `PthreadCalls.CreatedThreadRunsItsRoutine` | src/pthread.c:191-232 | the thread a successful pthread_create returns runs the routine and argument passed to that call |
| `PthreadCalls.OneValueIsGiven` | src/pthread.c:191-266 | in every run, a thread that has begun to end gave exactly one value, by returning or by pthread_exit, and that is the one kept |
| `PthreadCalls.JoinAnswers` | src/pthread.c:234-254 | from call to return: an error only for a thread that cannot be joined; 0 only after the thread ended, with the very value it gave, or NULL if it is no pthread or never got past its TLS setup |
| `PthreadCalls.SomebodyMoves` | src/pthread.c:184-266 | in every reachable state a thread in a call, starting or ending can step, or the holder of the table lock it waits for can, or it joins a thread still running |
| `PthreadCalls.StepsLeadOn` | src/pthread.c:184-266 | own steps lower the number of steps left and other threads' steps do not change it |
| `MpiTags.TagFieldsAdd` | src/mpi.c:69-71 | the fields of a tag do not overlap, on 32-bit words |
| `MpiTags.TagBitsDecode` | src/mpi.c:69-71 | operation and low 24 bits of the sequence number can be read back from a tag |
| `MpiTags.TagsAgree` | src/mpi.c:69-71 | the word coll_tag computes with shifts and masks stands for the tag of the numeric model, for every code and counter |
| `MpiTags.CollTagInjective` | src/mpi.c:42-71 | two tags are equal if and only if operation and sequence number modulo 2^24 are |
| `MpiTags.CollTagReserved` | src/mpi.c:56-71 | a collective's tag is positive, above MPI_TAG_UB and neither HELLO nor GO, and its top byte is 0x41 to 0x44 by operation |
| `MpiTags.SendRefusesOnlyNegativeTags` | src/mpi.c:335 | MPI_Send accepts a tag if and only if it is not negative, a collective's tag included |
| `Mailbox.ReceiveIsMailbox` | src/mpi.c:386-430 | a receive hands out the first match of queue followed by arrivals, and leaves the rest in order if and only if at most 16 messages were ahead of it; what was asked for is decided by source and tag, each given or any; a blocked receive has no match |
| `Mailbox.ReceiveIsBagReceive` | src/mpi.c:386-430 | a receive takes one matching message, and all others are kept or counted as dropped |
| `Mailbox.NothingOvertakes` | src/mpi.c:386-463 | over any sequence of receives, if a later delivery would have matched an earlier request then it arrived later, drops or not |
| `Mailbox.ReceiveShrinks` | src/mpi.c:386-430 | a receive leaves a subsequence in arrival order, and whatever it leaves that matches arrived after what it took |
| `Mailbox.SocketTakesFirst` | src/mpi.c:394-429 | the socket loop takes the first match, skipping runts and interrupts, and keeps the others in order while there is room |
| `Mailbox.SocketConsumes` | src/mpi.c:394-429 | a receive takes off the socket everything up to its message, or up to an error other than an interruption, which it reports, or all there is |
| `Mailbox.OnlyAnyTagTakesLibraryTraffic` | src/mpi.c:345-349 | a request matches a collective's message if and only if it asks for any tag or names that very tag, and its source fits; no tag up to MPI_TAG_UB does |
| `PendingPool.UnlinkChain` | src/mpi.c:352-363 | writing a slot's successor into the link leading to it removes exactly that slot from the list |
| `PendingPool.AppendChain` | src/mpi.c:378-384 | linking a fresh slot behind the last appends it to the list |
| `PendingPool.Pool.FitsThePool` | src/mpi.c:352-384 | a well-formed list has at most 16 slots, and 16 exactly when every slot is on it |
| `PendingPool.Pool.Take` | src/mpi.c:352-363 | pointer-to-pointer removal takes the first match off the sequence, or nothing |
| `PendingPool.Pool.Alloc` | src/mpi.c:365-370 | the first free slot is marked and returned, and none is found exactly when all are used |
| `PendingPool.Pool.Push` | src/mpi.c:378-384 | tail insertion appends to the sequence |
| `PendingPool.Pool.TakeQueued` | src/mpi.c:386-392 | a queued match is copied out before its slot is freed, and the list stays consistent |
| `PendingPool.Pool.Keep` | src/mpi.c:413-428 | an unwanted frame goes to the tail if a slot is free and is dropped otherwise |
| `PendingPool.Pool.RecvMatch` | src/mpi.c:386-430 | pool and list refine Mailbox.Receive; between calls a slot is used exactly when it is on the acyclic, duplicate-free list |
| `PendingPool.Pool.Recv` | src/mpi.c:432-463 | MPI_Recv's refusals in order, none of which touches anything, and what it delivers: the message into the front of the buffer, or truncation with the buffer unchanged; source, tag and byte count are reported in both cases |
| `ReduceOps.CombineAssociates` | src/mpi.c:518-565 | wrapped sum and product, max and min are associative |
| `ReduceOps.FoldIgnoresOrder` | src/mpi.c:585-601 | folding the same multiset of buffers gives the same result |
| `ReduceOps.ArrivalOrderIsIrrelevant` | src/mpi.c:585-601 | the root's fold of its own buffer with the others in arrival order is the fold in rank order, whoever is root |
| `ReduceOps.FoldIsExactWhenItFits` | src/mpi.c:518-565 | an element of the result is the exact sum or product if and only if that fits the type; max and min always do |
| `ReduceOps.FoldIsWrappedExact` | src/mpi.c:518-565 | an element of the result is the exact value reduced to the type's width once |
| `ReduceOps.ExactColumnMeans` | src/mpi.c:518-565 | an element of the exact fold is the sum, the product, the largest or the smallest of its column, defined without the operations |
| `ReduceOps.ReductionMeans` | src/mpi.c:518-601 | an element of the reduction of all buffers is the largest or smallest of what the ranks passed in, or the word of the type congruent to their sum or product |
| `ReduceOps.ReduceApply` | src/mpi.c:518-565 | the error code, an unchanged buffer on error, and otherwise, by the codes 0 to 3 of the header, each of the first count elements is the word of sum or product, the larger or the smaller of the two, and nothing else changes |
| `Collectives.AllHeard` | src/mpi.c:594-601 | n-1 receipts from distinct other ranks are receipts from all of them |
| `CollectivesProofs.TagPicksTheMessage` | src/mpi.c:42-71 | a message in flight that carries the tag a rank waits for belongs to a collective; it is the one the rank is in, from a rank that owes it and not received before, if and only if its collective is less than 2^24 away and its sender left out as many calls, modulo 2^24 |
| `CollectivesProofs.StepSends` | src/mpi.c:467-603 | a rank's record of having sent changes only by sending, and never back |
| `CollectivesProofs.StepReceives` | src/mpi.c:467-603 | a rank's record of having received changes only by receiving that very message |
| `CollectivesProofs.NextKeepsInv` | src/mpi.c:467-603 | the global invariant is inductive under loss, reordering, client traffic and failing calls, while no receive can match a wrong message |
| `CollectivesProofs.BarrierSeparates` | src/mpi.c:467-496 | a rank that has returned successfully from a barrier did so after every rank entered that barrier, whatever failed before |
| `CollectivesValues.ReduceCountsEveryoneOnce` | src/mpi.c:567-603 | a successful reduce at the root took one contribution from each other rank, all to that same call, and holds the fold of all ranks' inputs in rank order |
| `CollectivesValues.BcastDelivers` | src/mpi.c:498-515 | a rank that returns successfully from a broadcast holds what the root passed to that call |
| `CollectivesValues.AllreduceAgrees` | src/mpi.c:605-610 | every rank that returns successfully from an allreduce holds the fold of all ranks' inputs to it |
| `CollectivesValues.ReduceMeans` | src/mpi.c:567-603 | an element at the root of a successful reduce is the largest or smallest of what all ranks passed in, or their sum or product as a word of the type |
| `CollectivesValues.AllreduceMeans` | src/mpi.c:605-610 | the same of every rank of a successful allreduce |
| `CollectivesValues.OthersOnce` | src/mpi.c:594-601 | contributions from all others, each once and in any order, are the others' buffers as a multiset |
| `CollectivesValues.RunKeepsValues` | src/mpi.c:498-603 | in every state, partial folds and finished results are those of the contributions recorded |
| `CollectivesWindow.RunAheadIsCountedTwice` | src/mpi.c:42-71 | a run with a message from 2^24 collectives ahead whose reduce at the root counts rank 1 twice and rank 2 never |
| `CollectivesSkips.FailedAllreduceMisleads` | src/mpi.c:605-610 | a run, with every message less than 2^24 away, in which rank 0's allreduce fails, its program broadcasts 9 next, and rank 1's allreduce succeeds with 9 |
| `CollectivesSkips.SameCallSameTag` | src/mpi.c:67-71 | in every run, two ranks in the same call use the same tag if and only if they have left out equally many broadcasts, modulo 2^24 |
| `CollectivesSkips.OnlyFailedAllreduceSkips` | src/mpi.c:605-610 | in every run, a rank leaves out a call if and only if it is the broadcast of an allreduce whose reduction did not succeed there |
| `CollectivesSkips.StoppingRunIsRun` | src/mpi.c:42-71 | runs of programs that make no collective call after a failed one, with counters less than 2^24 apart, are among those the collective theorems are about |
| `CollectivesProgress.WorkNeverFails` | src/mpi.c:467-603 | a step inside a collective never ends it with an error: tokens fit and buffers are as long as agreed |
| `CollectivesProgress.OnlyCommunicationFails` | src/mpi.c:467-603 | in every run a collective fails only by a send or receive that fails |
| `CollectivesProgress.SomebodyGoesOn` | src/mpi.c:467-603 | deadlock freedom: without losses and failures, until all ranks are done, a rank at no later call than any other can step without an error |
| `CollectivesProgress.CleanRunsComplete` | src/mpi.c:467-610 | every run without losses and failures, counters less than 2^24 apart, can be continued until every rank has succeeded in every call |
| `CollectivesProgress.EveryProgramCompletes` | src/mpi.c:467-610 | every program of collectives has such a run, for any number of ranks |
| `CollectivesNetwork.ReceiveIsNetworkStep` | src/mpi.c:386-430 | a receive out of queue and socket is a receive from the bag: the message matches, drops are losses, and the rank's step is a move that leaves the rest in place |
| `CollectivesNetwork.CarriedIgnoresOrder` | src/mpi.c:386-430 | the messages frames carry depend on the frames as a multiset only |
| `Rendezvous.NobodyLeavesBeforeAllAreBound` | src/mpi.c:162-277 | with any loss, delay, reordering or duplication of HELLO and GO, no rank leaves successfully before every rank has bound its port |
| `Rendezvous.RemainingCountsTheUnseen` | src/mpi.c:229-246 | rank 0's counter is the number of ranks not marked seen, and 0 exactly when all are |
| `Rendezvous.CountHellos` | src/mpi.c:229-246 | rank 0's loop counts each rank's HELLO once, polls only while a rank is unseen, completes exactly when all are seen and stops at the first error |
| `RendezvousProgress.StrandedStays` | src/mpi.c:217-277 | a rank whose GO is lost never leaves successfully, whatever happens |
| `RendezvousProgress.OnlyALostGoStrands` | src/mpi.c:217-277 | in every run, as long as no GO is lost and rank 0 has not failed, nobody is left without one: rank 0 leaves only after sending all of them |
| `RendezvousProgress.CompletionIffNoGoIsLost` | src/mpi.c:217-277 | from every reachable state without failures, all ranks can still leave successfully if and only if nobody has been left without a GO |
| `Tls.AlignUpIsLeastMultiple` | src/start.c:57-60 | align_up is the least multiple of the larger of alignment and 8 that is not below its argument, unless the addition wraps |
| `Tls.PlacementFits` | src/start.c:85-110 | image and self-pointer lie inside the mapping without overlapping, and block and thread pointer are aligned to the segment's alignment and to 8 |
| `Tls.VariantTwoOffset` | src/start.c:57-110 | the block starts where variant II puts it if and only if the size rounded to the segment's alignment is a multiple of 8, always so from alignment 8 up |
| `Tls.ByteAlignedBlockMisses` | src/start.c:57-60 | one byte with alignment 1 is a valid segment for which the two sizes differ, 8 against 1 |
| `Words.LeRoundTrip` | src/start.c:85-110 | the bytes of a word give the word back |
| `Tls.Runtime.FindTemplate` | src/start.c:65-80 | the template is that of the first PT_TLS header, or stays as it was |
| `Tls.Runtime.SetupSelf` | src/start.c:85-110 | without a template or a mapping nothing is written and the code is 0 or mmap's; otherwise the mapping holds the image at the block, the thread pointer's own address at the thread pointer and zeros elsewhere, and the code is arch_prctl's |
| `Tls.TemplateHolds` | src/start.c:65-80 | the template of a header has its image and alignment, 8 for none, and a size that holds the segment with less than one alignment to spare |
| `Tls.Runtime.Start` | src/start.c:65-124 | in terms of the program headers alone: nothing is set up without a non-empty PT_TLS header; otherwise the block begins with the image, goes on with zeros for the asked size and ends below the thread pointer with less than one alignment to spare, both are aligned as asked, and the thread pointer points at itself |
| `Dirent.OwesOneLess` | src/dirent.c:48-65 | the record at the offset is the first one owed, and behind it the rest is owed |
| `Dirent.OwesNextBatch` | src/dirent.c:48-65 | at the end of the buffer, an empty or failing batch means nothing is owed, and another batch holds what is |
| `Dirent.Dir.Readdir` | src/dirent.c:48-65 | hands out the next owed record, whole and in place, and stops exactly when none is left; the offset stays on a record boundary or at the end |
| `Dirent.ListAll` | src/dirent.c:48-65 | calling readdir until it stops yields every record owed, in order, each once |
| `Dirent.Dir.Open` | src/dirent.c:23-46 | an opened directory owes the records of all batches up to the first empty or failing one; a failing first batch is not opened |
| `Dirent.OwesAllRecords` | src/dirent.c:23-65 | after the first batch, what readdir has to hand out one by one is the concatenation of the records of all batches up to the first empty or failing one |
| `Dirent.EntriesAreRecords` | include/dirent.h:28-34 | a buffer filled with entries in the layout of the struct is whole records, exactly those entries |
| `Dirent.ListingIsTheEntries` | src/dirent.c:48-65 | a directory whose entries come in such batches owes exactly those entries, in order |
| `Dirent.Table.constructor` | src/dirent.c:21 | the table starts with four slots, every one free |
| `Dirent.Table.Opendir` | src/dirent.c:23-46 | fails exactly when no slot is free, the open failed or the first batch did; otherwise takes the first free slot and leaves every open directory as it was |
| `Dirent.Table.Closedir` | src/dirent.c:67-76 | -EBADF for no handle or one that is not open; otherwise the slot is free again and the code is that of close; nothing else changes |
| `DottedQuad.WordOfOctets` | src/socket.c:97-142 | a word is rebuilt from its octets |
| `DottedQuad.OctetsOfWord` | src/socket.c:127 | the octets of an assembled word are those it was assembled from |
| `DottedQuad.OctetAt` | src/socket.c:134 | octet i of a word is what the shift by 8i and the mask give |
| `DottedQuad.HtonlReverses` | src/socket.c:97-101 | htonl gives a 32-bit word with the octets in the opposite order |
| `DottedQuad.HtonlInvolutive` | src/socket.c:97-101 | swapping the bytes twice gives the word back |
| `DottedQuad.HtonlBitsInvolutive` | src/socket.c:97-101 | the same for the shifts and masks of the source, on 32-bit words, with the position of each byte |
| `DottedQuad.HtonlAgrees` | src/socket.c:97-101 | the shifts and masks of the source compute the numeric htonl, on every word |
| `DottedQuad.NoneIsBroadcast` | src/socket.c:103-128 | a string that parses gives INADDR_NONE if and only if it parses as 255.255.255.255 |
| `DottedQuad.PrintStrips` | src/socket.c:135-137 | printing the value of one to three digits gives them without redundant leading zeros |
| `DottedQuad.DigitsAreDecimal` | src/socket.c:130-142 | the characters are the decimal digits |
| `DottedQuad.PrintsDotted` | src/socket.c:130-142 | an address prints as its four octets in decimal, lowest byte of the word first, with dots between them |
| `DottedQuad.JoinParses` | src/socket.c:103-128 | octet texts joined by dots parse to their values |
| `DottedQuad.ParsedIsJoin` | src/socket.c:103-128 | nothing else parses |
| `DottedQuad.PrintThenParse` | src/socket.c:97-142 | parsing a printed address gives the address back, for every 32-bit address |
| `DottedQuad.ParseThenPrint` | src/socket.c:97-142 | whatever parses prints as itself without redundant leading zeros |
| `DottedQuad.ReadOctet` | src/socket.c:108-115 | the inner loop accepts exactly one to three digits of value below 256 and stops behind them |
| `DottedQuad.ReadPart` | src/socket.c:107-121 | one pass of the outer loop either shows that the string is no dotted quad or takes one octet off what is left to parse |
| `DottedQuad.InetAddr` | src/socket.c:103-128 | the loop computes the address of a dotted quad and INADDR_NONE for every other string |
| `DottedQuad.InetNtoaR` | src/socket.c:130-142 | writes the printed address and its NUL, at most 16 characters |

## Left out

- PendingPool.Pool.Recv: requires that count times the element size does not overflow, as the product is `int` arithmetic in the source; a pool slot is assumed to hold a whole frame.
- ReduceOps.ReduceApply: MPI_DOUBLE is excluded, because floating-point sums depend on arrival order; MPI_BYTE and MPI_CHAR have no reduction. Signed overflow, undefined in C, is modelled as wrap-around.
- Tls.AlignUpIsLeastMultiple: clearing low bits is modelled as subtracting the remainder, which for a power of two is the same; for other alignments it is not.
- Locks and slot tables are step relations on values, one step per shared access, rather than methods on objects, because what they promise is about interleavings.
- Weak memory: the atomics are sequentially consistent steps; the acquire and release annotations are not modelled.
- Time: a timeout is a step that a sleeper in a timed wait may take at any moment; durations are not modelled.
- Fairness: which sleeper the kernel wakes, and freedom from starvation. The progress theorems say what can always happen next and how often at most, not that a scheduler does it.
- The collectives assume that all ranks call the same collectives with the same arguments, and that 0 <= count without overflow in count times the element size.
- The collectives' own argument checks (communicator, rank, count, type) and the other checks of MPI_Send.
- Rendezvous: no stale frames from an earlier session; and client messages that reach a rank still polling for GO are discarded there, so nothing is claimed about early messages.
- Freedom from pool exhaustion: leftover HELLO frames can occupy slots, and a full pool drops.
- pthread_join assumes that thread ids are not reused. The refusals of null pointers and attributes by the pthread and semaphore calls are not modelled.
- Clients of the mutex unlock only what they hold, and clients of the condition variable wait only while holding.
- The system call, socket and signal wrappers, crt0, MPI_Launch, MPI_Init's argument handling, stdio and string functions: thin wrappers, input and output, or easy loops. The kernel's answers are parameters or nondeterministic steps.
