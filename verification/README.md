# LOCKIN/GLS: locks, lock table and locking service

A Dafny model of the concurrent core of LOCKIN/GLS: the adaptive lock GLK, the queue,
ticket, futex and reader-writer locks it is built from or shipped with, the hash table
that maps addresses to locks, the locking service GLS on top of it, and the deadlock
detector. `dafny verify dfyconfig.toml` checks everything.

## How the code is modelled

Code that runs concurrently is a machine: shared memory, one program counter per thread,
and a function that performs one access to shared memory (or one atomic instruction) of
one thread. A schedule is any sequence of thread choices, for any number of threads, and
the main results quantify over all schedules. Interleaving is sequentially consistent;
futex wait compares and sleeps atomically, futex wake is one step, and sleepers may return
spuriously. Numbers that only the proof needs (queue orders, unwrapped ticket numbers,
round counts) travel along, and no step depends on them.

`Gls` puts the machines together: the table is the machine of `ConcurrentTable`, and every
lock that the table allocates is a machine of `Glk` of its own.

Safety holds over all schedules. Progress is stated in two ways: what the next steps of a
thread do in every reachable state, and what a call comes to when its thread moves alone from
such a state, with the others stopped wherever they are (the lemmas named `...Alone`).

| module | the code it steps through |
|---|---|
| Glk | src/glk.c: glk_lock, glk_trylock, glk_unlock, unlock_lock and the three adaptation functions (lines 271-499), its ticket lock (693-760) |
| Mcs | src/mcs_in.c lines 76-140; the same code in src/glk.c lines 611-687, with the holder's queue walk (598-609) |
| Clh | src/clh_in.c lines 58-80 and 112-147 |
| Mutexee | include/mutexee_in.h lines 274-320 and 368-418; src/glk.c lines 839-901 is the case of one recheck |
| Ticket | include/ticket_in.h lines 111-183 |
| TicketFutex | include/ticket_fu_in.h lines 97-149 |
| RwLock | include/ttas_rw_in.h lines 100-200 |
| Barrier | src/sbarrier.c lines 29-65 |
| ConcurrentTable | src/clht_lock_pointer.c lines 440-464, 495-693, 953-1147; include/clht_lock_pointer.h lines 335-384 |
| Gls, GlsInit | src/gls.c lines 84-148, 225-233, 286-295, 354-370; the lazy start, lines 171-200 |

Code that one thread runs by itself keeps its imperative form: `GlkCode` (the adaptation
and release functions of glk.c, proved to do what the machine does when nothing interrupts
it), `LockTable` (the hash table on linked heap buckets), `McsNodes` (the per-thread node
slots), `Deadlock` (the detector's loops over its trace array) and `MutexeeTraining`.
`Tables` says what a chain of buckets and a table mean as values, `Sums` counts threads.

Some results are about the limits of the code:

* GLK's ticket and MCS paths write lock_type without testing it. That is safe in all runs
  for at most 2048 threads, and unsafe for any larger number (`GlkOverflow`); the same
  number bounds GLS (`GlsOverflow`).
* These runs have timely trylocks: fewer than 2^32 tickets pass between a trylock's read of
  tail and its compare-and-swap. Without that hypothesis two threads can already break
  exclusion (`GlkTrylock`). The plain ticket lock has the same window (`Ticket`).
* The reader-writer word counts readers correctly, and keeps writers apart from everybody,
  in all runs for fewer than 65536 threads, and for no larger number.
* ttas_rw_lock_tryrlock masks the word with 0 where its name suggests a writer test, so its
  compare-and-swap only ever succeeds on a completely free lock: while other readers hold
  the lock it goes round its loop and never returns.
* ht_status halves a sparse table to nothing for exactly one combination, 7 buckets and 1
  key; hashtable_create(0) then returns NULL, which ht_resize_pes dereferences.
* A resize of the lock table that is due may never take place: the thread that has to do it
  finds resize_lock still held by a resizer that has already published the table in question.
  Two threads and thirteen puts suffice, and that table is then never resized
  (`ConcurrentTableLost`). In no other way is a resize lost.
* A put that waits for the replacement of the current table waits until the next resize, which
  may never come (`ConcurrentTableProgress.WaiterGoesOn`).
* The node slot loops run to index 16 of 16 heads; the extra probe is the `waiting` word of
  the first node, and it matters exactly when 16 locks are held.
* The deadlock detector's trace ends after 63 hops: it misses a cycle of all 64 threads, and no other.

## Model

| member | source | states |
|---|---|---|
| Glk.StepsOnResidues | src/glk.c:693-755 | the lock on 32-bit head, tail and ticket numbers and the lock on unwrapped ones take the same steps, also at the sampling and adaptation tests |
| GlkSafety.MutualExclusion | src/glk.c:457-499 | with at most 2048 threads and timely trylocks, no schedule of lock, trylock and unlock calls, mode switches and flips of the multiprogramming flag puts two threads into the critical section, however often the tickets have wrapped |
| GlkOverflow.ExclusiveIffBounded | include/glk.h:80-99 | exclusion holds in all runs with timely trylocks if and only if there are at most 2048 threads |
| GlkTrylock.UntimelyExclusiveIff | src/glk.c:744-755 | without a bound on the tickets that pass during a trylock, exclusion holds in all runs if and only if there is at most one thread |
| GlkSafety.WriterHoldsNamedLock | src/glk.c:348-455 | whoever is about to write lock_type, on any of the three adaptation paths, holds the low-level lock that lock_type names at that moment |
| GlkSafety.UnlockReleasesHeldLock | src/glk.c:271-303 | glk_unlock re-reads lock_type, and the low-level lock it then releases is the one its caller holds; so does the give-up branch of glk_lock and glk_trylock |
| GlkSafety.StepKeepsInv | src/glk.c:305-499 | every access of every thread keeps the joint invariant of the three low-level locks, of lock_type and of the two sampling counters |
| GlkPeriods.ExitsApart | src/glk.c:348-398 | consecutive switches away from the ticket lock are made by tickets at least 4096 apart |
| GlkPeriods.NumAcquiredSmall | src/glk.c:611-644 | num_acquired stays below 8192 in every run, so the counter never wraps |
| GlkCode.GlkLock.constructor | src/glk.c:505-530 | the lock starts as a mutex when there are more runnable threads than processors, as a ticket lock otherwise, and free |
| GlkCode.GlkLock.TicketAdap | src/glk.c:348-398 | every 4096th ticket, and no other, decides: for the mutex, for MCS exactly with queue_total at 96 or more, keeping an eighth of it, or else to stay; and the in-place code ends where the machine ends when this thread moves alone |
| GlkCode.GlkLock.McsAdap | src/glk.c:401-437 | every 128th acquisition adds the length of the queue to the 32-bit queue_total; every 4096th decides: for the mutex, for the ticket lock exactly when the sum, read as signed, is below 64, or else to stay with an eighth of it; and agrees with the machine |
| GlkCode.GlkLock.MutexAdap | src/glk.c:439-455 | back to the ticket lock with both counters at 0 exactly when lock_type still names the mutex and the flag is off; and agrees with the machine |
| GlkProgress.ReleasePassesOn | src/glk.c:271-286 | the thread that releases a low-level lock holds it, nobody holds it right after, and the next in line goes on |
| GlkProgress.AlwaysGoesOn | src/glk.c:611-755 | in every reachable state each low-level lock, current or stale, with somebody in line has a holder, or its first waiter leaves its spin loop at its next access; a release waiting for its successor's link needs one step of that successor |
| GlkCode.GlkLock.Unlock | src/glk.c:288-303 | releases what lock_type names, as the machine's two steps do |
| GlkCode.GlkLock.TryLow | src/glk.c:305-327 | succeeds exactly when that low-level lock is free, takes it then, and changes nothing otherwise |
| GlkCode.GlkLock.CheckType | src/glk.c:486-496 | a round is repeated exactly when lock_type no longer names the lock just taken, which has then been given up |
| GlkCode.TicketAdapRuns | src/glk.c:348-398 | the machine's steps through the ticket adaptation, run without interruption, end in the state the code computes |
| GlkCode.McsAdapRuns | src/glk.c:401-437 | the same for the MCS adaptation |
| GlkCode.MutexAdapRuns | src/glk.c:439-455 | the same for the mutex adaptation |
| GlkCode.TicketDecides | src/glk.c:348-398 | the machine, run alone from its adaptation point on the ticket path, makes those decisions |
| GlkCode.McsDecides | src/glk.c:401-437 | the same on the MCS path, with the length that its walk has counted |
| GlkCode.MutexDecides | src/glk.c:439-455 | the same on the mutex path |
| GlkCode.TicketSamples | src/glk.c:693-711 | a thread that queues up adds the number of tickets before its own to queue_total with every 128th ticket, and with no other |
| GlkAlone.TryLockAlone | src/glk.c:305-343 | glk_trylock that nobody disturbs returns after at most six steps: inside exactly if nobody is in the low-level lock that lock_type names, and without a trace otherwise |
| GlkAlone.LockAlone | src/glk.c:457-499 | glk_lock on a free lock enters by itself, whatever it adapts on the way and however often it goes round |
| GlkAlone.UnlockAlone | src/glk.c:288-303 | glk_unlock takes two steps and releases the lock its thread holds, unless the next thread in the MCS queue has yet to link itself |
| Mcs.ExclusiveAndFifo | src/mcs_in.c:76-140 | at most one holder, and it is the oldest entry in the order of the swaps of lock->next |
| Mcs.RefinesFifo | src/mcs_in.c:76-140 | every access to the queue's pointers is a join, a leave or nothing at the level of an ordered queue of threads, which is what module Glk uses |
| Mcs.HeadCanProceed | src/mcs_in.c:90-109 | the first thread of a non-empty queue holds the lock or leaves its spin loop at its next access, also while the list is broken between swap and link |
| Mcs.WakesNext | src/mcs_in.c:112-140 | a release clears the waiting flag of the next thread in swap order and of no other |
| Mcs.WalkBounded | src/glk.c:598-609 | the holder's walk over a growing queue never counts more nodes than threads are queued |
| Mcs.NodeFreeAfterUnlock | src/glk.c:664-687 | after unlock neither the lock, nor another thread's next step, nor a queued node leads to the thread's node |
| Mcs.TryTakesIffFree | src/mcs_in.c:76-87 | each of trylock's two tests goes on exactly when the queue is empty, and trylock gives up otherwise |
| Mcs.TryLockAlone | src/mcs_in.c:76-87 | a whole trylock without interruption takes the lock exactly if the queue is empty, and otherwise leaves no trace |
| Mcs.LockAlone | src/mcs_in.c:89-109 | lock on a free lock takes three steps |
| Mcs.UnlockAlone | src/mcs_in.c:111-140 | unlock returns by itself once the next thread has linked itself, after at most five steps, and leaves the queue to that thread |
| Mcs.LinkComes | src/mcs_in.c:102-103 | the link that an unlock waits for takes at most two steps of the next thread |
| Mcs.WalkCounts | src/glk.c:598-609 | the holder's walk, when the others stand still, counts exactly the threads up to the first one that has not linked itself |
| McsNodes.LocalNodes.GetLocalLock | src/mcs_glk_in.c:60-75 | claims the first free slot, if the probe finds one, and changes no other word |
| McsNodes.LocalNodes.GetLocalUnlock | src/mcs_glk_in.c:77-91 | frees the first slot that has this lock's address, and changes no other word |
| McsNodes.LocalNodes.GetLocalNochange | src/mcs_glk_in.c:94-107 | finds that slot without freeing it |
| McsNodes.AlwaysSlotted | src/glk.c:549-595 | after any history of at most 16 nested locks, with writes to the nodes by others in between, slots and held locks are in one-to-one correspondence |
| McsNodes.UnlockFindsNode | src/glk.c:566-580 | the lookup at unlock returns the node given out for that lock, and different held locks have different nodes |
| McsNodes.SeventeenthLock | src/glk.c:549-563 | a lock gets a node of its own exactly when fewer than 16 are held; otherwise the last probe overwrites the first node's waiting word, or finds nothing |
| Clh.ExclusiveAndFifo | src/clh_in.c:112-147 | at most one holder, and it is the oldest entry in the order of the swaps of lock->head |
| Clh.NodesApart | src/clh_in.c:58-80 | the nodes owned by any two threads and the spare node stay pairwise different although every release exchanges two of them |
| Clh.NodesConserved | src/clh_in.c:58-80 | the nodes ever allocated are exactly the threads' own and the spare one; n threads never need more than n + 1 |
| Clh.NeverRelocksWatchedNode | src/clh_in.c:112-134 | no thread sets locked = 1 in a node on which another thread still spins |
| Clh.HeadCanProceed | src/clh_in.c:112-134 | the first thread of a non-empty queue holds the lock, or holds it after at most two steps of its own |
| Clh.SpinnerLeaves | src/clh_in.c:129-133 | a spinning thread leaves its loop at its next look exactly when it is the first in the queue |
| Clh.LockAlone | src/clh_in.c:112-134 | lock on a free lock takes at most six steps |
| Clh.UnlockAlone | src/clh_in.c:137-147 | unlock takes four steps, and the queue then starts with the next thread |
| Mutexee.MutualExclusion | include/mutexee_in.h:274-418 | at most one holder, and the locked byte is set exactly while there is one |
| Mutexee.NoLostWakeup | include/mutexee_in.h:368-406 | while a thread sleeps, an awake thread is responsible for it: the holder or a rechecking unlocker with contended set, an unlocker about to wake, or a waiter about to exchange 257 |
| Mutexee.NeverStranded | include/mutexee_in.h:274-406 | a free lock with a sleeper and nobody else under way is unreachable, although unlock may skip the wake and clears contended late |
| Mutexee.WakeupWithinReach | src/glk.c:839-889 | from every state with a sleeper, at most one step of one thread and rechecks + 7 steps of another, both already under way, wake a sleeper |
| Mutexee.TakenIffFree | include/mutexee_in.h:274-320 | each exchange of lock and trylock obtains the lock exactly when nobody holds it; trylock's gives up otherwise, and the last one of lock leads to sleep |
| Mutexee.CallAlone | include/mutexee_in.h:274-280 | lock and trylock on a free lock take two steps, and a failing trylock leaves no trace |
| Mutexee.UnlockAlone | include/mutexee_in.h:368-406 | unlock that nobody disturbs returns within rechecks + 7 steps and leaves both bytes clear |
| MutexeeTraining.Mutexee.LockTraining | include/mutexee_in.h:322-365 | keeps the spin counts in line with the mode and the limits in range; spinning ends exactly at an epoch boundary with n_miss above n_miss_limit, futex mode exactly at a boundary at which is_futex had reached retry_spin_every, and only there do the limits change, upwards |
| MutexeeTraining.ValidAlways | include/mutexee_in.h:322-365 | along every run lock and unlock spin for 8192 and 384 cycles in spinning mode, for 256 and 128 in futex mode, retry_spin_every is 8, 16 or 32 and n_miss_limit is within 128 to 256 |
| MutexeeTraining.FutexModeLasts | include/mutexee_in.h:335-362 | futex mode counts one per epoch boundary, whatever the misses, and ends at the boundary after the count has reached retry_spin_every, with a longer stay next time |
| Ticket.ExclusiveAndFifo | include/ticket_in.h:111-183 | with fewer than 2^32 threads and timely trylocks, one holder at most, ahead of all waiting tickets, however often the counters have wrapped |
| Ticket.DistanceIsOutstanding | include/ticket_in.h:81-90 | tail - head + 1 in 32-bit arithmetic is the number of tickets outstanding |
| Ticket.NextIsServed | include/ticket_in.h:123-166 | a spinning thread sees distance 0 exactly when its ticket is the next one |
| Ticket.WindowExact | include/ticket_in.h:111-121 | 2^32 tickets between trylock's read and its compare-and-swap make two threads hold the lock |
| Ticket.TryLockAlone | include/ticket_in.h:111-121 | trylock without interruption takes the lock exactly when no ticket is outstanding, and otherwise leaves no trace |
| Ticket.LockAlone | include/ticket_in.h:123-166 | lock on a free lock takes three steps |
| Ticket.UnlockAlone | include/ticket_in.h:169-183 | unlock takes three steps and passes the lock to the next ticket |
| TicketFutex.ExclusiveAndFifo | include/ticket_fu_in.h:97-149 | one holder at most, ahead of all waiting tickets, for fewer than 2^32 threads and timely trylocks, although a distance of 2^31 or more reads as negative and skips the sleep |
| TicketFutex.SleepersAreFar | include/ticket_fu_in.h:109-137 | once no wake-all is pending, every sleeper has at least two tickets before its own |
| TicketFutex.SuccessorAwake | include/ticket_fu_in.h:109-149 | with the lock free and no wake-all pending, the thread whose turn it is is awake and enters with at most three steps of its own |
| TicketFutex.FarSleeps | include/ticket_fu_in.h:109-130 | a thread that looks at its distance is asleep two steps later exactly when two or more, and at most INT_MAX, tickets are to be served before its own |
| TicketFutex.TryLockAlone | include/ticket_fu_in.h:97-107 | trylock without interruption takes the lock exactly when no ticket is outstanding, and otherwise leaves no trace |
| TicketFutex.LockAlone | include/ticket_fu_in.h:109-137 | lock on a free lock takes three steps |
| TicketFutex.UnlockAlone | include/ticket_fu_in.h:139-149 | unlock takes four steps, passes the lock to the next ticket and leaves nobody asleep |
| RwLock.CountedIffBounded | include/ttas_rw_in.h:99-200 | in all runs the word is the writer's flag plus the number of waiting and holding readers, if and only if there are fewer than 65536 threads |
| RwLock.WriterAloneIffBounded | include/ttas_rw_in.h:121-200 | in all runs a writer coexists with no other writer and no reader that holds the lock, if and only if there are fewer than 65536 threads |
| RwLock.TryReadNeedsFree | include/ttas_rw_in.h:101-118 | the compare-and-swap of tryrlock takes the lock exactly when nobody waits or holds, gives up exactly beside a writer, and starts over exactly beside readers alone |
| RwLock.TryReadNeverReturns | include/ttas_rw_in.h:101-118 | running beside a reader that holds the lock, tryrlock never returns: it alternates between its two accesses and changes nothing |
| RwLock.EntryTests | include/ttas_rw_in.h:101-183 | the accesses of wlock and trywlock go on exactly when nobody waits or holds, those of rlock and tryrlock's first exactly when there is no writer; otherwise the try variants give up and the others wait |
| RwLock.CallAlone | include/ttas_rw_in.h:101-183 | each of the four calls on a free lock obtains it in three steps |
| RwLock.UnlockAlone | include/ttas_rw_in.h:186-200 | unlock takes three steps for a writer and four for a reader, and takes away exactly what its caller had added |
| RwLock.UnlockUndoes | include/ttas_rw_in.h:186-200 | unlock takes the branch of the caller's role at each of its steps, and its write takes away exactly what the caller had added |
| RwLock.Overflow | include/ttas_rw_in.h:186-200 | with 65536 readers inside, a reader's unlock leaves it in the count |
| Barrier.NobodyLeavesEarly | src/sbarrier.c:44-65 | no thread returns from its k-th wait before every thread has made its k-th decrement |
| Barrier.OneRoundApart | src/sbarrier.c:44-65 | the numbers of completed waits of two threads differ by at most one |
| Barrier.RefilledInTime | src/sbarrier.c:49-53 | a thread about to decrement finds crossed_n full but for the arrivals of the same round, and no refill under way |
| Barrier.LastOneReleases | src/sbarrier.c:49-61 | two steps of the last arrival release every spinning thread |
| Barrier.NextRoundComes | src/sbarrier.c:44-65 | from every reachable state of one or more threads some schedule completes the round: the barrier never blocks for good |
| Tables.InsertMeaning | src/clht_lock_pointer.c:640-680 | storing an absent key in the first hole or in a linked bucket adds exactly one binding and keeps keys unique and hashed |
| Tables.RemoveMeaning | src/clht_lock_pointer.c:895-917 | clearing a key removes exactly its binding |
| Tables.GetMeaning | src/clht_lock_pointer.c:495-523 | the scan of one chain finds what the table as a whole binds, or 0 |
| Tables.SizeMeaning | src/clht_lock_pointer.c:1149-1177 | counting non-zero keys counts the bindings |
| Tables.CopyMeaning | src/clht_lock_pointer.c:1086-1091 | a table into which every entry has been copied means the same, whatever the two numbers of buckets |
| Tables.HalvedToNothing | src/clht_lock_pointer.c:1224-1238 | a sparse table is divided down to no buckets exactly with 7 buckets and 1 key |
| LockTable.HashTable.constructor | src/clht_lock_pointer.c:374-431 | an empty table with its threshold equal to its number of buckets |
| LockTable.HashTable.AddBucket | src/clht_lock_pointer.c:316-327 | a bucket with the one entry is linked at the end of one chain, the others stay, and a resize is asked for exactly when the count of expansions equals the threshold |
| LockTable.HashTable.Get | src/clht_lock_pointer.c:495-523 | the first entry with the key in the chain of its hash |
| LockTable.HashTable.PutImpl | src/clht_lock_pointer.c:588-693 | an existing key changes nothing and returns its value; a new one goes into the first hole, found only after the whole chain has been scanned, or else into a new bucket |
| LockTable.HashTable.PutSeq | src/clht_lock_pointer.c:984-1017 | stores unconditionally in the first hole or a new bucket |
| LockTable.HashTable.Remove | src/clht_lock_pointer.c:873-917 | clears the key, leaves its value behind in the hole, and touches no other chain |
| LockTable.HashTable.Size | src/clht_lock_pointer.c:1149-1177 | the number of entries with a key |
| LockTable.BucketCopy | src/clht_lock_pointer.c:953-982 | everything seen so far of the old table, and nothing else, is in the new one; the old one is unchanged |
| LockTable.Resize | src/clht_lock_pointer.c:1043-1147 | any positive number of buckets gives a fresh table with exactly the same meaning, which asks for another resize only if it holds three keys per bucket or more |
| Tables.DenseSize | src/clht_lock_pointer.c:984-1017 | in a table filled by clht_lp_put_seq alone, the linked buckets number at most a third of the keys |
| LockTable.Pow2RoundUp | include/clht_lock_pointer.h:55-64 | the least power of two that is not smaller, and 0 above 2^31 |
| LockTable.NewSize | src/clht_lock_pointer.c:1224-1253 | a sparse table shrinks to an eighth even when an increase was asked for; any other is multiplied by the least power of two that is not below inc_by, and at least by two |
| LockTable.Clht.constructor | src/clht_lock_pointer.c:330-370 | the empty map |
| LockTable.Clht.PutType | src/clht_lock_pointer.c:556-693 | put is idempotent: the map gains at most this key, with the new lock, also when the put resizes the table, once or several times; the result is the key's lock, and no resize is due afterwards |
| LockTable.Clht.Get | src/clht_lock_pointer.c:495-523 | the key's lock, or 0 |
| LockTable.Clht.Remove | src/clht_lock_pointer.c:873-917 | the map loses exactly this key, and its value is returned |
| LockTable.Clht.Size | src/clht_lock_pointer.c:1149-1177 | the size of the map |
| LockTable.Clht.Status | src/clht_lock_pointer.c:1106-1258 | the map survives every increase and every decrease that leaves a bucket; the follow-up resizes that ht_resize_pes starts come to an end, each with at least twice the buckets, and the last table has expanded fewer times than its threshold |
| ConcurrentTableSafety.StepKeepsInv | src/clht_lock_pointer.c:556-693 | every access of every thread keeps the invariant of buckets, locks, versions, triggers and half-finished copies |
| ConcurrentTableSafety.RefinesMap | src/clht_lock_pointer.c:640-693 | the table is a map to which a put adds its key, absent until then, with a lock no other key has, at one single step; no other step of put, get or resize changes it |
| ConcurrentTableSafety.RunKeeps | src/clht_lock_pointer.c:1043-1147 | no binding is ever lost or changed, across any number of resizes |
| ConcurrentTableSafety.PutsAgree | src/clht_lock_pointer.c:556-693 | two puts anywhere in a run, on old or new tables, return the same lock if and only if they have the same key |
| ConcurrentTableSafety.GetFinds | src/clht_lock_pointer.c:495-523 | a lock-free get that starts after its key is in the table returns the key's lock, even on a table that is replaced meanwhile |
| ConcurrentTableSafety.OldTablesAgree | src/clht_lock_pointer.c:1106-1128 | no table has a key twice, and no replaced table contradicts the current one |
| ConcurrentTableSafety.ResizesInOrder | src/clht_lock_pointer.c:316-327 | the i-th resize turns table i into table i + 1: each table is resized at most once and the versions form one chain |
| ConcurrentTableSafety.ResizerClosesAll | src/clht_lock_pointer.c:1043-1091 | the table read before resize_lock was won is still the current one, and the resizer never meets a bucket closed by somebody else, which it would skip |
| ConcurrentTableProgress.ResizeLockOwned | src/clht_lock_pointer.c:1052-1127 | resize_lock is taken exactly while some thread is between winning and releasing it |
| ConcurrentTableProgress.CountTriggers | src/clht_lock_pointer.c:316-327 | the put whose count makes num_expands equal to the threshold, and no other, has the resize to do |
| ConcurrentTableProgress.DueIsHandled | src/clht_lock_pointer.c:1043-1144 | in every reachable state in which the current table has expanded as often as its threshold, some thread has its resize to do or is doing it, unless that table's trigger was lost |
| ConcurrentTableProgress.LostExactly | src/clht_lock_pointer.c:1050-1055 | a trigger is lost exactly when its thread finds resize_lock taken, and then by a resizer that has published the current table, has nothing more to do and has yet to release |
| ConcurrentTableProgress.LostForever | src/clht_lock_pointer.c:316-327 | a table past its threshold with nobody to resize it stays the current one in every continuation |
| ConcurrentTableLost.NeverResized | src/clht_lock_pointer.c:1116-1144 | such a state is reachable with two threads and thirteen puts |
| ConcurrentTableProgress.ResizeAlone | src/clht_lock_pointer.c:1043-1147 | a thread with a resize to do that finds resize_lock and the buckets free completes it by itself: the next table, of the size asked for, is the current one and resize_lock is free |
| ConcurrentTableProgress.PutAlone | src/clht_lock_pointer.c:556-693 | a put whose bucket is free, or that has its bucket, ends by itself, or comes to the resize it has to do: the map gains at most its key, the result is the key's lock and the bucket is free |
| ConcurrentTableLost.Puts | src/clht_lock_pointer.c:588-693 | a put of a new key alone, from first to last access, stores key and new lock in the first hole of the chain or in a linked bucket, counts the latter, and has to resize exactly when the count reaches the threshold |
| ConcurrentTableProgress.GetAlone | src/clht_lock_pointer.c:495-523 | a get ends by itself whatever the others have left half done, with the key's lock, or 0 if there is none |
| ConcurrentTableProgress.WaiterGoesOn | include/clht_lock_pointer.h:335-384 | a put that found its bucket closed goes on with the current table, two steps later, exactly if the table it waits for has been replaced; otherwise it waits |
| Gls.ExclusivePerAddress | src/gls.c:225-370 | with at most 2048 threads and timely trylocks, for every address at most one thread is between gls_lock (or a successful gls_trylock) and gls_unlock, through every step of cache, table and adaptive locks |
| GlsOverflow.ExclusiveIffBounded | src/gls.c:225-370 | that holds in all runs with timely trylocks if and only if there are at most 2048 threads |
| Gls.UnlockFindsLock | src/gls.c:132-148 | gls_unlock, through the cache or any version of the table, is about to release the lock bound to the address, and its thread is in that lock's critical section |
| Gls.LockStartsOutside | src/gls.c:108-119 | gls_lock and gls_trylock start on the lock bound to the address, and their thread is not in the middle of another operation on it |
| GlsCalls.TryLockAlone | src/gls.c:286-295 | gls_trylock that nobody disturbs returns after at most seven steps: with the address held exactly if nobody is in the low-level lock that the address's lock goes by, and without a trace otherwise |
| GlsCalls.LockAlone | src/gls.c:225-233 | gls_lock returns by itself with the address held when nobody is in the address's lock |
| GlsCalls.UnlockAlone | src/gls.c:354-370 | gls_unlock returns after three steps with the low-level lock released, unless the next thread in the MCS queue has yet to link itself |
| GlsCalls.LockReturns | src/gls.c:225-295 | a call of gls_lock or gls_trylock returns with the address held exactly from the critical section, and gls_lock in no other way |
| GlsCalls.UnlockLookupAlone | src/gls.c:132-148 | gls_unlock without a cache entry gets through the table by itself |
| Gls.CacheAgrees | src/gls.c:84-121 | a filled thread-local cache entry always agrees with the shared table |
| Gls.StepKeepsInv | src/gls.c:84-370 | every access of every thread, in the service, the table or any lock, keeps the joint invariant |
| GlsInit.OneTable | src/gls.c:171-200 | however many threads make the first call at once, one table is created and all of them use it |
| GlsInit.SomebodyStarts | src/gls.c:171-200 | nobody waits in vain: in every reachable state some thread completes the start with at most four steps of its own |
| GlsInit.CallersProceed | src/gls.c:171-200 | once the service has started every call gets to the table within three steps of its own |
| Deadlock.GetOwner | src/clht_lock_pointer.c:159-200 | the owner recorded with the address and what that thread waits for; without an owner the caller's variable keeps its old value |
| Deadlock.Check | src/clht_lock_pointer.c:232-284 | a report exactly if the chain of owners comes back to the caller within 63 hops, never through a stale owner; the printed lines are that cycle |
| Deadlock.Print | src/clht_lock_pointer.c:262-271 | the printing loop ends, inside the filled part of the trace |
| Deadlock.FindsAllButFullCircle | src/clht_lock_pointer.c:250-281 | the caller is in a waits-for cycle of whatever length if and only if the detector reports it or the cycle takes 64 hops |
| Deadlock.FullCircleMissed | src/clht_lock_pointer.c:238-281 | a cycle of all 64 threads exists that is not reported |

## Left out

- Fairness: progress is stated for threads that are scheduled; no lemma says that every thread that waits is served in the end.
- Weak memory: accesses interleave in a sequentially consistent order.
- The machines run on values instead of updating objects in place: other threads act between any two accesses, and spin loops have no termination measure. GlkCode ties the in-place code of glk.c to its machine.
- Glk: the low-level MCS lock is its queue of threads and the mutex its locked byte; modules Mcs and Mutexee prove the code below. The queue walk returns any count from 1 to the number of threads queued.
- Gls: a thread unlocks only addresses it holds and does not lock an address it holds. The debug modes, the in-place TAS variants and the other kinds of locks are not modelled.
- GlkSafety.MutualExclusion: assumes that every trylock is timely, because the property fails otherwise (GlkTrylock.UntimelyExclusiveIff).
- Gls.ExclusivePerAddress: assumes the same of every trylock on every lock.
- ConcurrentTable: num_expands is unbounded (in the code it has 32 bits); the new number of buckets is any positive number; ht_status' counting loop only reads and is skipped. remove under concurrency is not modelled, as GLS never removes.
- ConcurrentTableProgress.PutAlone: from the call on, while no resize has closed the bucket; a put that has met a closed bucket is the subject of ConcurrentTableProgress.WaiterGoesOn, and may wait for ever.
- LockTable.Clht.Status: the quotient of the two floating-point ratios, from which the factor of an increase comes, is any number up to 2^31.
- LockTable.Clht.PutType: no other thread interferes, and the lock to insert is a parameter in place of malloc and the lock's initialisation.
- Ticket.ExclusiveAndFifo: assumes that every trylock is timely, because the property fails otherwise (Ticket.WindowExact).
- TicketFutex.ExclusiveAndFifo: assumes timely trylocks for the same reason.
- McsNodes: the nodes are two words, as in src/glk.c; padded to 64 bytes, as mcs_glk_impl.h can have them, they still follow the 16 heads directly.
- McsNodes.AlwaysSlotted: assumes at most 16 nested locks per thread; McsNodes.SeventeenthLock says what happens beyond.
- Deadlock.Check: runs on a snapshot; nobody locks or waits meanwhile, and dd_lock is free.
- The multiprogramming monitor (/proc polling): its flag changes at any time to any value.
- Spin counts, yielding, pause instructions, padding, transactional variants and helping with resizes.
- Condition variables, timed locks, the sleeping barrier, the remaining lock variants, statistics, random numbers and benchmarks.
