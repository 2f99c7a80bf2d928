# OS/161: verified models of kernel and library cores

This project models the parts of the OS/161 teaching kernel, with its process and
file-descriptor layer, whose correctness is hard to see from the code, and proves
what they are for. All source paths are relative to the root of the repository.

| file | models |
|---|---|
| `Common.dfy` | concepts that several models share |
| `Words.dfy` | fixed-width words, bitwise OR, division facts |
| `Qdivrem.dfy` | `__qdivrem` (Algorithm D of Knuth, TAOCP volume 2, section 4.3.1) and the signed wrappers |
| `Muldi3.dfy` | `__muldi3`, `__lmulq` (section 4.3.3) |
| `ThreadList.dfy` | the intrusive thread list, as linked heap objects |
| `ThreadSystem.dfy` | context switch, wait channels, zombies and migration on any number of CPUs |
| `ThreadTurns.dfy` | who runs next: run queues, yielding, forking, the course of a migration |
| `Spl.dfy` | interrupt levels, spinlocks and the lock hand-over at a context switch |
| `Synch.dfy` | semaphore, lock and condition variable |
| `SemaphoreOnThreads.dfy` | the semaphore on the scheduler's own wait channel |
| `Hangman.dfy` | the deadlock detector |
| `Chains.dfy`, `Kmalloc.dfy` | the kernel heap: data structure invariant and code |
| `KmallocRuns.dfy` | the kernel heap under concurrency |
| `KmallocSections.dfy` | the heap's code as steps of that machine |
| `OpenFiles.dfy` | open-file table and descriptor tables |
| `ExecArgs.dfy` | the argument block of `execv` |
| `Printf.dfy` | number formatting, `printf` engine, `vsnprintf`, `atoi` |
| `Memmove.dfy` | `memcpy`, `memmove` |

How the models are built:

- Sequential code is imperative Dafny: arrays for digit buffers and memory, objects
  for linked nodes, classes for the allocator, the file tables, the deadlock
  detector and the printf state.
- Concurrent code is a step machine. A step is what one CPU or thread does between
  acquiring and releasing a spinlock, or less where a lock is handed over or
  dropped in the middle. Theorems quantify over all sequences of steps. Memory is
  sequentially consistent.
- In `ThreadSystem` a `fault` flag is set when one of these checks fails: a node put
  on a list is on no list (`kern/thread/threadlist.c:55-56,113-134`); the caller of
  `thread_make_runnable` holds the lock it says it holds (`kern/thread/thread.c:465`);
  the new state is not S_RUN (`:604`); the run queue lock is held by the CPU that
  releases it after a switch; a zombie destroyed is not current, is a zombie and is
  on no list (`:271-272,307-308`); and migration finds a thread whenever it takes one
  (`:884-906`). It is proved that it never is set. That the migration list ends empty
  (`:956`) and that a current thread belongs to its CPU (`:572`) are separate
  conclusions. A wait channel's own spinlock is not modelled: any CPU may take a
  sleeper at any time, which only adds behaviours.
- The locked sections in `KmallocRuns` are relations; `KmallocSections` proves that the
  code, run on `Kmalloc.KHeap`, satisfies them. `alloc_kpages` and `free_kpages` appear by
  contract: pages that nobody has, or none.
- 32-bit and 64-bit wrap-around is written out wherever the code can wrap.

Where a natural property turned out not to hold, the model follows the code:

- `kfree` can fail the assertion on line 318 of `kern/vm/kmalloc.c`
  (`KmallocRuns.KfreeAssertionReachable`). `Kmalloc.KHeap.FreeOn` says exactly when:
  the last block of a page is freed and a root before the one that holds its pageref
  has no page. A failed pageref-page allocation leaves its slot marked, and 256 of
  those use up a root that has no page.
- `kmalloc` of more than 2^32 - 4096 bytes rounds to 0 pages
  (`KmallocRuns.PagesForCovers`). The runs in `KmallocRuns` are for smaller requests.
- `copy_args` compares the total length of the strings with ARG_MAX but not that of
  the block, which also has pointers and padding, and its second pass looks at no
  size at all. `ExecArgs.CopyArgs`: it stores outside kargbuf if and only if the block
  is longer than ARG_MAX. `ExecArgs.CopyEmpties` is an input on which it does.
- A program started with an empty argument list does not get the address of its
  NULL-terminated vector: `sys_execv` lays the vector out but passes NULL
  (`ExecArgs.EmptyArgvIsNull`). `ExecArgs.SeenIffNotEmpty`: the vector is passed if and
  only if it is not empty.

Two rules that the code leaves to its callers:

- `std_open` does not look at what its descriptor held. `OpenFiles.OverwriteIff` says
  when that leaves a count wrong, and `OpenFiles.Files.StartProcess` proves that its
  only caller never gets there.
- `thread_switch` does not check that its caller holds no spinlock but the run
  queue's (`wchan_sleep` does). `Spl.SwitchNeedsOneLock`: the counters survive the
  switch if and only if that is so.

## Model

| member | source | states |
|---|---|---|
| Words.BitOrDisjoint | os161/os161-base-2.0.3/common/gcc-millicode/qdivrem.c:48 | pasting fields with `|` is addition when the operands share no bit |
| Qdivrem.ShlDigit | os161/os161-base-2.0.3/common/gcc-millicode/qdivrem.c:276-277 | one digit of a left shift is the low part of its own bits plus the high part of the next digit |
| Qdivrem.Shl | os161/os161-base-2.0.3/common/gcc-millicode/qdivrem.c:270-279 | the number spelled by the digits is multiplied by 2^sh in place, nothing else changes, provided no bit falls out at the left |
| Qdivrem.EstimateDigit | os161/os161-base-2.0.3/common/gcc-millicode/qdivrem.c:193-210 | the trial digit is the exact quotient of the leading three digits by the leading two, capped at B - 1; with v[1] >= B/2 the correction loop runs at most twice |
| Qdivrem.TrialIsClose | os161/os161-base-2.0.3/common/gcc-millicode/qdivrem.c:185-191 | Knuth's theorem: for dividends and divisors of any length the trial digit is the true digit or one more |
| Qdivrem.TrialDigit | os161/os161-base-2.0.3/common/gcc-millicode/qdivrem.c:193-210 | step D3 on the digit arrays gives the true digit or one more |
| Qdivrem.MulSub | os161/os161-base-2.0.3/common/gcc-millicode/qdivrem.c:217-223 | step D4 subtracts qhat * v modulo B^(n+1) digit by digit through wrapping words, and reports the borrow |
| Qdivrem.BorrowMeansOneTooMany | os161/os161-base-2.0.3/common/gcc-millicode/qdivrem.c:224-230 | the subtraction borrows if and only if the trial digit was one too large; otherwise what is left is the remainder |
| Qdivrem.AddBack | os161/os161-base-2.0.3/common/gcc-millicode/qdivrem.c:232-237 | step D6 adds v modulo B^(n+1) |
| Qdivrem.AddBackRestores | os161/os161-base-2.0.3/common/gcc-millicode/qdivrem.c:228-238 | one add-back brings the running remainder into 0 <= u < v |
| Qdivrem.Round | os161/os161-base-2.0.3/common/gcc-millicode/qdivrem.c:182-240 | one round of steps D3 to D6 turns U < V * B into quotient digit U / V and remainder U % V in place, so u[j] becomes 0 |
| Qdivrem.DigitLoop | os161/os161-base-2.0.3/common/gcc-millicode/qdivrem.c:176-240 | after all rounds the digits of q and the remainder in u satisfy U = Q * V + R, 0 <= R < V |
| Qdivrem.SkipLeadingZeros | os161/os161-base-2.0.3/common/gcc-millicode/qdivrem.c:157-158 | the loop that settles m stays inside the array and ends with m >= 0 because u >= v |
| Qdivrem.NormalisingShift | os161/os161-base-2.0.3/common/gcc-millicode/qdivrem.c:169-171 | the loop finds d < 16 with B/2 <= v[1] * 2^d < B |
| Qdivrem.Normalise | os161/os161-base-2.0.3/common/gcc-millicode/qdivrem.c:167-175 | both numbers are multiplied by 2^d, v[1] >= B/2, and the first n digits of u stay below v |
| Qdivrem.Unscale | os161/os161-base-2.0.3/common/gcc-millicode/qdivrem.c:242-246 | scaling both operands scales the remainder and leaves the quotient |
| Qdivrem.Denormalise | os161/os161-base-2.0.3/common/gcc-millicode/qdivrem.c:248-254 | the remainder digits are shifted right exactly |
| Qdivrem.ProgramD | os161/os161-base-2.0.3/common/gcc-millicode/qdivrem.c:163-240 | the quotient digits are those of the unscaled division |
| Qdivrem.ReadRemainder | os161/os161-base-2.0.3/common/gcc-millicode/qdivrem.c:247-258 | the remainder read out is u % v |
| Qdivrem.DivideShort | os161/os161-base-2.0.3/common/gcc-millicode/qdivrem.c:124-148 | the unrolled single-digit division gives quotient and remainder |
| Qdivrem.DivisorDigits | os161/os161-base-2.0.3/common/gcc-millicode/qdivrem.c:123-150 | leading zero digits of the divisor are skipped without changing its value |
| Qdivrem.DivideLong | os161/os161-base-2.0.3/common/gcc-millicode/qdivrem.c:152-262 | division by a divisor of two to four digits, with the remainder if asked for |
| Qdivrem.Load | os161/os161-base-2.0.3/common/gcc-millicode/qdivrem.c:112-122 | four digits spell the 64-bit operand |
| Qdivrem.UDivRem | os161/os161-base-2.0.3/common/gcc-millicode/qdivrem.c:67-263 | for all u and all v != 0 below 2^64 the quotient is u / v and the remainder, if wanted, u % v; v = 0 traps |
| Qdivrem.TruncLaw | os161/os161-base-2.0.3/common/gcc-millicode/divdi3.c:40-43 | truncating quotient and remainder reassemble the dividend, |r| < |b|, and r is never of the opposite sign to a (C99 section 6.5.5) |
| Qdivrem.DivDi3 | os161/os161-base-2.0.3/common/gcc-millicode/divdi3.c:44-62 | truncating division of all signed operands; MIN / -1 alone wraps to MIN; division by zero traps |
| Qdivrem.ModDi3 | os161/os161-base-2.0.3/common/gcc-millicode/moddi3.c:45-62 | truncating remainder of all signed operands |
| Muldi3.Karatsuba | os161/os161-base-2.0.3/common/gcc-millicode/muldi3.c:43-69 | the three-product identity for any radix |
| Muldi3.AddHalfShifted | os161/os161-base-2.0.3/common/gcc-millicode/muldi3.c:223-232 | adding x << 16 to a double word with a carry taken from wrap-around is addition modulo 2^64 |
| Muldi3.SubHalfShifted | os161/os161-base-2.0.3/common/gcc-millicode/muldi3.c:219-222 | subtracting likewise, with the borrow taken from wrap-around |
| Muldi3.AddWord | os161/os161-base-2.0.3/common/gcc-millicode/muldi3.c:233-235 | adding a word with the carry tested against it is addition modulo 2^64 |
| Muldi3.LMulQ | os161/os161-base-2.0.3/common/gcc-millicode/muldi3.c:183-241 | the exact 64-bit product of any two 32-bit words although partial sums wrap |
| Muldi3.HighWordValue | os161/os161-base-2.0.3/common/gcc-millicode/muldi3.c:138-157 | the high word collects everything of weight 2^32 modulo 2^32 |
| Muldi3.MulQuads | os161/os161-base-2.0.3/common/gcc-millicode/muldi3.c:124-158 | the product modulo 2^64 of unsigned operands |
| Muldi3.MulDi3 | os161/os161-base-2.0.3/common/gcc-millicode/muldi3.c:99-164 | the product modulo 2^64 of all signed operands, MIN included |
| ThreadList.List.constructor | os161/os161-base-2.0.3/kern/thread/threadlist.c:60-72 | a new list is empty and well linked |
| ThreadList.List.InsertAfterNode | os161/os161-base-2.0.3/kern/thread/threadlist.c:105-120 | forward and backward links still describe one duplicate-free sequence, with the node inserted after the given one |
| ThreadList.List.InsertBeforeNode | os161/os161-base-2.0.3/kern/thread/threadlist.c:125-140 | the same, before the given one |
| ThreadList.List.RemoveNode | os161/os161-base-2.0.3/kern/thread/threadlist.c:145-157 | the node leaves the sequence and both its links are NULL |
| ThreadList.List.DetachedNotHere | os161/os161-base-2.0.3/kern/thread/threadlist.c:111-114 | a node with NULL links is on no list |
| ThreadList.List.IsEmpty | os161/os161-base-2.0.3/kern/thread/threadlist.c:91-97 | true if and only if the sequence is empty |
| ThreadList.List.AddHead | os161/os161-base-2.0.3/kern/thread/threadlist.c:162-170 | puts the node first; count and links stay right |
| ThreadList.List.AddTail | os161/os161-base-2.0.3/kern/thread/threadlist.c:172-180 | puts the node last |
| ThreadList.List.RemHead | os161/os161-base-2.0.3/kern/thread/threadlist.c:182-198 | returns NULL if and only if the list is empty, else the first node, detached |
| ThreadList.List.RemTail | os161/os161-base-2.0.3/kern/thread/threadlist.c:200-216 | returns NULL if and only if the list is empty, else the last node, detached |
| ThreadList.List.InsertAfter | os161/os161-base-2.0.3/kern/thread/threadlist.c:218-224 | inserts after a thread on the list |
| ThreadList.List.InsertBefore | os161/os161-base-2.0.3/kern/thread/threadlist.c:226-232 | inserts before a thread on the list |
| ThreadList.List.Remove | os161/os161-base-2.0.3/kern/thread/threadlist.c:234-240 | removes a thread from anywhere in the list |
| ThreadSystem.KeepsFork | os161/os161-base-2.0.3/kern/thread/thread.c:498-552 | creating a thread keeps the invariant of the whole system |
| ThreadSystem.KeepsMakeRunnable | os161/os161-base-2.0.3/kern/thread/thread.c:454-486 | making a newborn or woken thread runnable keeps it; an idle target gets an interprocessor interrupt |
| ThreadSystem.KeepsPlace | os161/os161-base-2.0.3/kern/thread/thread.c:601-625 | the current thread joins the end of the list its new state calls for, and the invariant is kept |
| ThreadSystem.KeepsSetState | os161/os161-base-2.0.3/kern/thread/thread.c:626-646 | setting t_state after the thread is already visible on a list keeps it |
| ThreadSystem.KeepsPickNext | os161/os161-base-2.0.3/kern/thread/thread.c:647-668 | taking the next thread, possibly the one whose stack the CPU idled on, keeps it |
| ThreadSystem.KeepsFinish | os161/os161-base-2.0.3/kern/thread/thread.c:717-722 | the new thread releases the lock that its predecessor acquired |
| ThreadSystem.ZombieNotCurrent | os161/os161-base-2.0.3/kern/thread/thread.c:294-311 | a thread about to be destroyed is current on no CPU and is in state S_ZOMBIE |
| ThreadSystem.KeepsExorcise | os161/os161-base-2.0.3/kern/thread/thread.c:267-311 | destroying a zombie leaves no dangling pointer |
| ThreadSystem.KeepsWakeTake | os161/os161-base-2.0.3/kern/thread/thread.c:1026-1083 | taking a sleeper off its channel keeps the invariant |
| ThreadSystem.KeepsMigTakeOne | os161/os161-base-2.0.3/kern/thread/thread.c:883-888 | taking a victim from the tail keeps it; there is always one to take |
| ThreadSystem.KeepsMigSkip | os161/os161-base-2.0.3/kern/thread/thread.c:898-924 | the current thread met among the victims is put back at the end |
| ThreadSystem.KeepsMigSend | os161/os161-base-2.0.3/kern/thread/thread.c:926-938 | moving a victim to another CPU keeps the invariant |
| ThreadSystem.KeepsMigPutOne | os161/os161-base-2.0.3/kern/thread/thread.c:948-954 | returning a leftover keeps it |
| ThreadSystem.StepKeepsInv | os161/os161-base-2.0.3/kern/thread/thread.c:454-958 | every step of every CPU keeps the invariant |
| ThreadSystem.RunKeepsInv | os161/os161-base-2.0.3/kern/thread/thread.c:454-958 | every interleaving keeps it |
| ThreadSystem.ReachableIsSafe | os161/os161-base-2.0.3/kern/thread/thread.c:564-732 | in every reachable state none of the checks that set `fault` (listed above) has failed, no thread is current on two CPUs, each thread is on at most one list once, run queues hold only their own CPU's threads, every current or listed thread still exists, and no thread is lost |
| ThreadSystem.SleepingCpuHasNoUnseenWork | os161/os161-base-2.0.3/kern/thread/thread.c:471-481 | a CPU asleep in cpu_idle with work on its run queue has an interrupt pending |
| ThreadSystem.LockSurvivesSwitch | os161/os161-base-2.0.3/kern/thread/thread.c:657-722 | across switchframe_switch the run queue lock is held by the CPU, and the thread switched to is on no list |
| ThreadSystem.SendIsGentle | os161/os161-base-2.0.3/kern/thread/thread.c:890-941 | a migration step never takes NULL, never moves a current thread, never lifts a target queue above one_share and touches no third queue |
| ThreadSystem.ShareIsAverage | os161/os161-base-2.0.3/kern/thread/thread.c:864-881 | the CPU goes on to migrate if and only if its queue is at least the average of the lengths counted; one_share is the least share with which all CPUs have room for every thread; what will be sent is the surplus above it |
| ThreadSystem.OwnShareStays | os161/os161-base-2.0.3/kern/thread/thread.c:881-888 | taking victims leaves the CPU at least one_share threads |
| ThreadSystem.CurrentOnRunQueueReachable | os161/os161-base-2.0.3/kern/thread/thread.c:898-919 | the situation the comment describes can arise: a current thread on its own run queue |
| ThreadSystem.MigrationEndsClean | os161/os161-base-2.0.3/kern/thread/thread.c:943-957 | after migration the list of victims is empty |
| ThreadTurns.RunQueuesAreQueues | os161/os161-base-2.0.3/kern/thread/thread.c:454-958 | every step of every CPU treats every run queue as a queue: whoever yields, is created, woken, sent or returned joins at the end, the CPU takes the first, migration the last, and nothing else changes it |
| ThreadTurns.LockedQueueStays | os161/os161-base-2.0.3/kern/thread/thread.c:454-958 | while a CPU holds the lock of a run queue, no other CPU changes the queue |
| ThreadTurns.CpuFlow | os161/os161-base-2.0.3/kern/thread/thread.c:564-732 | a CPU moves by its own steps only, in the order of thread_switch, and sleeps exactly if its queue is empty; a migration goes on in the order of its code, counting every queue and leaving a CPU only when it has its share or nothing is left |
| ThreadTurns.YieldTakesTurns | os161/os161-base-2.0.3/kern/thread/thread.c:815-836 | round robin under every interleaving: the first in the queue runs next, and the thread that yielded is last, behind all that were there in their order |
| ThreadTurns.YieldRuns | os161/os161-base-2.0.3/kern/thread/thread.c:564-732 | the steps of a yield follow on one another and end with the first thread running in S_RUN, the old one ready and last, and the queue unlocked |
| ThreadTurns.PokedCpuRuns | os161/os161-base-2.0.3/kern/thread/thread.c:642-660 | a sleeping CPU that is poked goes on with the first thread of its queue |
| ThreadTurns.ForkedThreadRuns | os161/os161-base-2.0.3/kern/thread/thread.c:499-552 | a new thread belongs to its parent's CPU and is last in its run queue |
| ThreadTurns.ZombieIsDestroyed | os161/os161-base-2.0.3/kern/thread/thread.c:300-312 | exorcise destroys the first zombie and no other thread, until there is none |
| ThreadTurns.VisitsInOrder | os161/os161-base-2.0.3/kern/thread/thread.c:890-944 | under every interleaving the sending loop turns to each other CPU once, in order, and stops early only when nothing is left to send |
| Semaphore.TestKeeps | os161/os161-base-2.0.3/kern/thread/synch.c:102-120 | one locked section of P keeps the semaphore invariant |
| Semaphore.WakeOneKeeps | os161/os161-base-2.0.3/kern/thread/synch.c:128-134 | V with its wakeup keeps it |
| Semaphore.RunKeepsInv | os161/os161-base-2.0.3/kern/thread/synch.c:88-135 | over every interleaving the counters agree with the calls completed |
| Semaphore.StepFlow | os161/os161-base-2.0.3/kern/thread/synch.c:88-135 | the flow of P for any thread and any step: in by the call, out only by a test that takes a unit, asleep at the end of the channel if there is none, woken only by a V and only as the first |
| Semaphore.ReturnTakesUnit | os161/os161-base-2.0.3/kern/thread/synch.c:102-120 | over every run, a thread that has called P is out of it only after its own test has lowered a positive count by one |
| Semaphore.SemaphoreTheorem | os161/os161-base-2.0.3/kern/thread/synch.c:88-135 | sem_count = initial + completed V - completed P, and while a thread sleeps sem_count is at most the number of woken threads that have not retested |
| SemaphoreOnThreads.StepShape | os161/os161-base-2.0.3/kern/thread/thread.c:454-958 | what a scheduler step can change: only thread_switch locks a run queue on its way out, channels and zombie lists gain only the thread placed there, only zombies vanish |
| SemaphoreOnThreads.KeepsSleeping | os161/os161-base-2.0.3/kern/thread/thread.c:606-618 | the sleeper is on the channel before sem_lock is released |
| SemaphoreOnThreads.StepKeepsInv | os161/os161-base-2.0.3/kern/thread/synch.c:88-135 | every step of P, V and the scheduler keeps the channel equal to the semaphore's queue, and threads inside P off all foreign lists |
| SemaphoreOnThreads.RefinesBoth | os161/os161-base-2.0.3/kern/thread/synch.c:88-135 | seen from either side the composition does what the semaphore and the scheduler do by themselves |
| SemaphoreOnThreads.WokenIsOnItsWay | os161/os161-base-2.0.3/kern/thread/synch.c:102-117 | a woken thread is running, on a waker's or migration list, or on the run queue of a CPU that is up or has an interrupt coming |
| SemaphoreOnThreads.NoLostWakeup | os161/os161-base-2.0.3/kern/thread/synch.c:88-135 | over every interleaving of P, V, context switches, interrupts and migration on any number of CPUs: the channel holds exactly the sleepers in order; while it is not empty there are at least as many woken threads as units; and all of those are on their way to run |
| SemaphoreOnThreads.SleepsUnderLock | os161/os161-base-2.0.3/kern/thread/thread.c:1007-1021 | a CPU that puts a thread on the channel holds sem_lock, as wchan_sleep asserts, and is the only one |
| LockAndCv.StepKeepsInv | os161/os161-base-2.0.3/kern/thread/synch.c:199-396 | every step of lock_acquire, lock_release, cv_wait, cv_signal and cv_broadcast keeps the invariant and moves threads only along the order of the code |
| LockAndCv.StepFlow | os161/os161-base-2.0.3/kern/thread/synch.c:199-396 | every thread goes through the code of its call in order, by its own steps or by being woken, and is stopped if and only if it breaks a rule of the lock |
| LockAndCv.CallFollowsRoute | os161/os161-base-2.0.3/kern/thread/synch.c:199-396 | over every run, the points a thread passes from inside a call to its return are those of the code |
| LockAndCv.WaitReturnsAsOwner | os161/os161-base-2.0.3/kern/thread/synch.c:338-361 | over every run, cv_wait releases the lock, sleeps, is woken, acquires the lock again and only then returns, as the owner |
| LockAndCv.AcquireAndReleaseReturn | os161/os161-base-2.0.3/kern/thread/synch.c:199-263 | lock_acquire, cv_signal and cv_broadcast return as the owner, lock_release no longer as the owner |
| LockAndCv.TokenSum | os161/os161-base-2.0.3/kern/thread/synch.c:215-259 | sem_count, threads past P, the owner and releasers before V add up to one |
| LockAndCv.LockTheorem | os161/os161-base-2.0.3/kern/thread/synch.c:199-263 | over every interleaving: that sum is one, KASSERT(lk_owner == NULL) and the one in V never fail, at most one owner |
| LockAndCv.NoSleeperOnFreeLock | os161/os161-base-2.0.3/kern/thread/synch.c:199-263 | if nobody holds or is passing on the lock, a sleeper implies a woken thread on its way to it |
| LockAndCv.WakeShape | os161/os161-base-2.0.3/kern/thread/synch.c:363-396 | cv_signal wakes the first sleeper if there is one, cv_broadcast all, nobody else |
| LockAndCv.SignalReachesWaiters | os161/os161-base-2.0.3/kern/thread/synch.c:338-396 | when a signaller wakes, every thread that gave up the lock in cv_wait and has not been woken is on the channel |
| WaitsForGraph.AcquireKeepsAcyclic | os161/os161-base-2.0.3/kern/thread/hangman.c:153-154 | recording an acquisition of a free lockable keeps the waits-for graph acyclic |
| WaitsForGraph.ReleaseKeepsAcyclic | os161/os161-base-2.0.3/kern/thread/hangman.c:179 | recording a release keeps it acyclic |
| WaitsForGraph.WaitClosesCycleIff | os161/os161-base-2.0.3/kern/thread/hangman.c:42-48 | a new wait edge keeps the graph acyclic if and only if the lockable's holder does not already wait, through any chain, for the actor |
| Hangman.Detector.Check | os161/os161-base-2.0.3/kern/thread/hangman.c:50-94 | the walk terminates on every acyclic graph, finds a deadlock if and only if there is one, and reports the actual chain |
| Hangman.Detector.Wait | os161/os161-base-2.0.3/kern/thread/hangman.c:109-129 | records the wait, and nothing else, or panics as specified; acyclicity is kept |
| Hangman.Detector.Acquire | os161/os161-base-2.0.3/kern/thread/hangman.c:131-157 | records the holder and that the actor no longer waits, and nothing else, or panics as specified; acyclicity is kept |
| Hangman.Detector.Release | os161/os161-base-2.0.3/kern/thread/hangman.c:159-182 | takes the holder out, and nothing else, or panics as specified; acyclicity is kept |
| Hangman.RunsStayAcyclic | os161/os161-base-2.0.3/kern/thread/hangman.c:50-182 | every run that does not panic keeps the graph acyclic |
| Hangman.GraphMeansCalls | os161/os161-base-2.0.3/kern/thread/hangman.c:109-182 | after any run the recorded holder of a lockable is the actor of its last acquisition unless released since, and an actor waits for what its last call waited for |
| Hangman.DetectsExactlyDeadlocks | os161/os161-base-2.0.3/kern/thread/hangman.c:109-129 | after any run, a wait panics with a deadlock if and only if the calls made before, with it, amount to a cycle of actors that wait for each other; the chain reported is such a cycle |
| Hangman.AcquireAndReleaseOutcomes | os161/os161-base-2.0.3/kern/thread/hangman.c:131-182 | an acquisition and a release return or panic exactly as the calls made before demand |
| Spl.KeepsSplx | os161/os161-base-2.0.3/kern/thread/spl.c:131-160 | splx sets the level and keeps counters and interrupt state right, in any nesting |
| Spl.SplxSetsLevel | os161/os161-base-2.0.3/kern/thread/spl.c:131-160 | the level becomes the one asked for, interrupts are off if and only if it is high or a spinlock is held, and nothing else changes |
| Spl.KeepsAcquireStart | os161/os161-base-2.0.3/kern/thread/spinlock.c:75-94 | the start of spinlock_acquire keeps them right |
| Spl.KeepsTestAndSet | os161/os161-base-2.0.3/kern/thread/spinlock.c:96-114 | winning the test-and-set excludes every other CPU |
| Spl.KeepsReleaseStart | os161/os161-base-2.0.3/kern/thread/spinlock.c:127-138 | clearing the holder keeps them right |
| Spl.KeepsClearWord | os161/os161-base-2.0.3/kern/thread/spinlock.c:138-142 | clearing the word and spllower keep them right |
| Spl.StepFlow | os161/os161-base-2.0.3/kern/thread/spinlock.c:75-142 | only a CPU's own steps move it through acquire and release, for the lock asked for; a call is stopped if and only if it breaks a rule |
| Spl.CallReturns | os161/os161-base-2.0.3/kern/thread/spinlock.c:75-142 | over every run of all CPUs, acquiring returns with exactly that lock more, releasing with exactly that lock less, in the same thread at the same level |
| Spl.KeepsSwitch | os161/os161-base-2.0.3/kern/thread/thread.c:657-722 | handing the run queue lock to the next thread keeps both threads' counts right |
| Spl.SwitchNeedsOneLock | os161/os161-base-2.0.3/kern/thread/thread.c:657-722 | the counters survive a switch to another thread if and only if the run queue lock is the only spinlock held |
| Spl.SwitchAndCreate | os161/os161-base-2.0.3/kern/thread/thread.c:657-722 | a switch changes who is current and nothing else, and can be undone; a new thread starts at a high level |
| Spl.KeepsCreate | os161/os161-base-2.0.3/kern/thread/thread.c:147-150 | the counts of a new thread, with the extra one of thread_fork, are those of a thread switched out |
| Spl.KeepsTraps | os161/os161-base-2.0.3/kern/arch/mips/locore/trap.c:166-213 | taking an interrupt and returning from it keep the counts right; the assertions on entry hold |
| Spl.TrapExitCatchesLeaks | os161/os161-base-2.0.3/kern/arch/mips/locore/trap.c:187-209 | the assertions on return stop a handler if and only if it lowered the level or still holds a spinlock |
| Spl.TrapLeavesNoTrace | os161/os161-base-2.0.3/kern/arch/mips/locore/trap.c:166-213 | an interrupt comes only when no lock is held, its handler runs at a high level with interrupts off, and without a leak it leaves no trace |
| Spl.KeepsIdling | os161/os161-base-2.0.3/kern/arch/mips/thread/cpu.c:292-297 | the window of cpu_idle with interrupts on at a high level, and interrupts taken there, keep the counts right |
| Spl.IdleLeavesNoTrace | os161/os161-base-2.0.3/kern/arch/mips/thread/cpu.c:292-297 | interrupts are on in the window, off in an interrupt taken there, and in the end as before |
| Spl.SplTheorem | os161/os161-base-2.0.3/kern/thread/spl.c:58-160 | over every interleaving: t_iplhigh_count is the spl level plus the locks held or in transit, and the level plus one for a thread switched out; c_spinlocks counts the locks held or spun for; interrupts are off if and only if the count is positive, but for the window of cpu_idle; no lock is held by two CPUs |
| HeapModel.PabRoundTrip | os161/os161-base-2.0.3/kern/vm/kmalloc.c:154-158 | page address and block type packed in one word come apart again |
| HeapModel.SizesArePowers | os161/os161-base-2.0.3/kern/vm/kmalloc.c:57-74 | the size classes are the powers of two from 16 to 2048 |
| HeapModel.PopRec | os161/os161-base-2.0.3/kern/vm/kmalloc.c:924-942 | taking the head of an intrusive free list leaves a free list, one shorter; the KASSERTs of doalloc hold |
| HeapModel.PopKeeps | os161/os161-base-2.0.3/kern/vm/kmalloc.c:920-954 | taking a block keeps the heap structure invariant |
| HeapModel.PushRec | os161/os161-base-2.0.3/kern/vm/kmalloc.c:1105-1140 | linking an overwritten block in front leaves a free list, one longer |
| HeapModel.PushKeeps | os161/os161-base-2.0.3/kern/vm/kmalloc.c:1105-1140 | giving a block back keeps the invariant |
| HeapModel.BlocksApart | os161/os161-base-2.0.3/kern/vm/kmalloc.c:57-74 | distinct blocks of a page do not overlap |
| HeapModel.FullIff | os161/os161-base-2.0.3/kern/vm/kmalloc.c:1140-1141 | nfree reaches PAGE_SIZE / size if and only if every block of the page is free |
| HeapModel.InsertKeeps | os161/os161-base-2.0.3/kern/vm/kmalloc.c:989-1014 | adding a page and its record keeps the invariant |
| HeapModel.MarkKeeps | os161/os161-base-2.0.3/kern/vm/kmalloc.c:279-283 | marking a slot keeps the bitmap counts and other slots right |
| HeapModel.ClearKeeps | os161/os161-base-2.0.3/kern/vm/kmalloc.c:322-333 | clearing a slot leaves all other reserved pagerefs reserved |
| HeapModel.SetPageKeeps | os161/os161-base-2.0.3/kern/vm/kmalloc.c:240-250 | giving a root its page keeps all pagerefs reserved |
| Kmalloc.KHeap.constructor | os161/os161-base-2.0.3/kern/vm/kmalloc.c:213-346 | the heap at boot satisfies the invariant and nothing is live |
| Kmalloc.KHeap.Blocktype | os161/os161-base-2.0.3/kern/vm/kmalloc.c:851-867 | the smallest size class that fits; the panic case if and only if the size exceeds 2048 |
| Kmalloc.KHeap.FindFree | os161/os161-base-2.0.3/kern/vm/kmalloc.c:914-920 | a record of the class with a free block, or the fact that there is none |
| Kmalloc.KHeap.TakeBlock | os161/os161-base-2.0.3/kern/vm/kmalloc.c:922-942 | the code of doalloc does what Pop specifies |
| Kmalloc.KHeap.TryAlloc | os161/os161-base-2.0.3/kern/vm/kmalloc.c:910-966 | the first locked section: a block of an existing page, or nothing changed and all pages of the class full |
| Kmalloc.KHeap.InitFreeList | os161/os161-base-2.0.3/kern/vm/kmalloc.c:998-1008 | the loop threads all blocks of a page into a free list and touches no other page |
| Kmalloc.KHeap.AddPage | os161/os161-base-2.0.3/kern/vm/kmalloc.c:989-1017 | the section after a page and a pageref are there |
| Kmalloc.FirstClear | os161/os161-base-2.0.3/kern/vm/kmalloc.c:274-293 | the word and bit loops find the lowest clear bit; KASSERT(0) is not reached |
| Kmalloc.KHeap.ReserveSlot | os161/os161-base-2.0.3/kern/vm/kmalloc.c:257-298 | marks the lowest free slot of the first root that is not full, or finds all full |
| Kmalloc.KHeap.InstallRefPage | os161/os161-base-2.0.3/kern/vm/kmalloc.c:233-250 | after relocking, the root keeps the page, or one of two pages goes back, or there is none |
| Kmalloc.KHeap.FreePageRef | os161/os161-base-2.0.3/kern/vm/kmalloc.c:303-337 | the slot is found and cleared; an assertion fails if and only if an earlier root has no page |
| Kmalloc.Unlink | os161/os161-base-2.0.3/kern/vm/kmalloc.c:830-836 | walking and splicing removes exactly the given record from a list |
| Kmalloc.KHeap.RemoveLists | os161/os161-base-2.0.3/kern/vm/kmalloc.c:822-845 | the record leaves both its lists |
| Kmalloc.KHeap.FindRecord | os161/os161-base-2.0.3/kern/vm/kmalloc.c:1072-1090 | the record whose page holds the pointer, or the fact that none does |
| Kmalloc.KHeap.FreeOn | os161/os161-base-2.0.3/kern/vm/kmalloc.c:1105-1151 | overwrites and frees the block, drops the page with its last block, and fails an assertion if and only if that page's pageref lies behind a root without a page |
| Kmalloc.KHeap.FreeBlock | os161/os161-base-2.0.3/kern/vm/kmalloc.c:1064-1151 | the locked part of subpage_kfree: a foreign pointer is reported, the panic for a misaligned one reached and the assertion failed, each if and only if it is due; otherwise the block is freed |
| KmallocRuns.KeepsReserve | os161/os161-base-2.0.3/kern/vm/kmalloc.c:257-298 | reserving a slot keeps the invariant of the whole system, with or without a page for it |
| KmallocRuns.KeepsRelock | os161/os161-base-2.0.3/kern/vm/kmalloc.c:226-250 | so does coming back with a pageref page after others ran |
| KmallocRuns.FinishTheorem | os161/os161-base-2.0.3/kern/vm/kmalloc.c:989-1017 | finishing an allocation from any of its three entry points grants exactly one new block |
| KmallocRuns.KeepsFree | os161/os161-base-2.0.3/kern/vm/kmalloc.c:1064-1151 | so does freeing |
| KmallocRuns.KeepsWrite | os161/os161-base-2.0.3/kern/vm/kmalloc.c:142-144 | a client writing into its own memory cannot damage a free list |
| KmallocRuns.PagesForCovers | os161/os161-base-2.0.3/kern/vm/kmalloc.c:1186-1191 | the whole-page rounding covers the request if and only if it does not wrap, that is up to 2^32 - 4096 bytes; beyond it is 0 pages |
| KmallocRuns.LiveAllocationsApart | os161/os161-base-2.0.3/kern/vm/kmalloc.c:1165-1223 | live allocations, small or whole-page, never overlap, and each has one size |
| KmallocRuns.PageReturnedIffLast | os161/os161-base-2.0.3/kern/vm/kmalloc.c:1140-1148 | a heap page goes back exactly when the freed block was its last live one |
| KmallocRuns.BigPointerNotOnHeapPage | os161/os161-base-2.0.3/kern/vm/kmalloc.c:1211-1223 | a whole-page allocation lies on no heap page, so kfree tells the kinds apart |
| KmallocRuns.StepEffect | os161/os161-base-2.0.3/kern/vm/kmalloc.c:873-1223 | each step grants exactly one allocation of at least the size asked for, removes exactly the one freed, or leaves what is live alone |
| KmallocRuns.CallFlow | os161/os161-base-2.0.3/kern/vm/kmalloc.c:873-1017 | every thread's call goes on by its own steps in the order of the code; it gives up only if alloc_kpages has no page, all pageref slots are taken, or there is no page for its pageref |
| KmallocRuns.HeapTheorem | os161/os161-base-2.0.3/kern/vm/kmalloc.c:873-1223 | after every interleaving from boot the structure invariant holds, no page is lost, and any two live allocations are disjoint |
| KmallocRuns.NextCallTheorem | os161/os161-base-2.0.3/kern/vm/kmalloc.c:873-1223 | the next step of any run does what StepEffect says |
| KmallocRuns.KfreeAssertionReachable | os161/os161-base-2.0.3/kern/vm/kmalloc.c:303-337 | a concrete run after which kfree of a live block fails the assertion on line 318 |
| KmallocSections.RequestSection | os161/os161-base-2.0.3/kern/vm/kmalloc.c:910-966 | the code of the first section is a Request step of the machine |
| KmallocSections.ReserveSection | os161/os161-base-2.0.3/kern/vm/kmalloc.c:978-1017 | the code from the second acquire on is a Reserve step |
| KmallocSections.RelockSection | os161/os161-base-2.0.3/kern/vm/kmalloc.c:233-250 | the code after the acquire in allocpagerefpage is a Relock step |
| KmallocSections.ResumeSection | os161/os161-base-2.0.3/kern/vm/kmalloc.c:244-250 | the code after an unneeded page was given back is a ResumeLock step |
| KmallocSections.FreeSection | os161/os161-base-2.0.3/kern/vm/kmalloc.c:1064-1151 | for every live pointer the code is a Free step, or reports a whole-page allocation as not its own exactly when it is one, or fails the assertion exactly when due; the panic for a misaligned pointer is not reached |
| OpenFiles.AddKeeps | os161/os161-base-2.0.3/kern/syscall/file_syscalls.c:560-564 | a new reference with its count keeps countRef equal to the number of descriptors |
| OpenFiles.DropKeeps | os161/os161-base-2.0.3/kern/syscall/file_syscalls.c:392-402 | dropping one keeps it, and the vnode was still there |
| OpenFiles.FillKeeps | os161/os161-base-2.0.3/kern/syscall/file_syscalls.c:334-344 | a slot taken for a new file is referenced by no descriptor |
| OpenFiles.OverwriteIff | os161/os161-base-2.0.3/kern/syscall/file_syscalls.c:628-630 | overwriting a used descriptor keeps the counts if and only if it was the only reference |
| OpenFiles.Files.SysOpen | os161/os161-base-2.0.3/kern/syscall/file_syscalls.c:332-367 | first free slot, first free descriptor above 2, ENFILE and EMFILE exactly when due, the whole new state in each case; the counts stay right |
| OpenFiles.Files.StdOpen | os161/os161-base-2.0.3/kern/syscall/file_syscalls.c:571-632 | -1 exactly when due, also for a failed vfs_open; otherwise the first free slot and the descriptor are filled, and the counts stay right if and only if the descriptor was empty or held the only reference to its file |
| OpenFiles.Files.StartProcess | os161/os161-base-2.0.3/kern/syscall/runprogram.c:90-98 | the only calls of std_open, on a table just zeroed, keep the counts right in every case; on success 0, 1 and 2 refer to files of their own; on failure a vfs_open failed or the system table is full |
| OpenFiles.Files.CloseDescriptor | os161/os161-base-2.0.3/kern/syscall/file_syscalls.c:392-411 | the count goes down, the vnode goes with the last reference, EIO is unreachable |
| OpenFiles.Files.SysClose | os161/os161-base-2.0.3/kern/syscall/file_syscalls.c:372-412 | EBADF exactly when due; otherwise one descriptor is emptied, its slot has one reference less, and the slot is free if and only if no descriptor refers to it any more |
| OpenFiles.Files.SysDup2 | os161/os161-base-2.0.3/kern/syscall/file_syscalls.c:518-568 | EBADF exactly when due; newfd becomes a copy of oldfd, what it held has one reference less and what oldfd holds one more; the counts stay right |
| OpenFiles.Files.CopyTable | os161/os161-base-2.0.3/kern/proc/proc.c:538-556 | the child gets a copy of the table and the counts stay right |
| OpenFiles.Files.DestroyProcess | os161/os161-base-2.0.3/kern/proc/proc.c:320-337 | all references of the process are dropped and the counts stay right |
| ExecArgs.AlignedLen | os161/os161-base-2.0.3/kern/syscall/proc_syscalls.c:199-208 | the least multiple of 4 with room for the string and its NUL |
| ExecArgs.ScanDecides | os161/os161-base-2.0.3/kern/syscall/proc_syscalls.c:220-241 | which argument lists are accepted, and for the others the first offending argument and its error |
| ExecArgs.Measure | os161/os161-base-2.0.3/kern/syscall/proc_syscalls.c:220-241 | errors in the order the code meets them; the length computed is the length of the block |
| ExecArgs.FillOne | os161/os161-base-2.0.3/kern/syscall/proc_syscalls.c:256-265 | one round writes its pointer and string and disturbs nothing written before |
| ExecArgs.Fill | os161/os161-base-2.0.3/kern/syscall/proc_syscalls.c:243-272 | the block is laid out as offsets, NULL and padded strings; the bytes stored to are exactly those of the block, wherever it ends |
| ExecArgs.BlockBound | os161/os161-base-2.0.3/kern/syscall/proc_syscalls.c:220-241 | no accepted argument list has a block of more than 8 * ARG_MAX + 4 bytes |
| ExecArgs.CopyArgs | os161/os161-base-2.0.3/kern/syscall/proc_syscalls.c:212-278 | errors, with nothing stored; for every accepted list the layout, and a store outside kargbuf if and only if the block is longer than ARG_MAX |
| ExecArgs.CopyEmpties | os161/os161-base-2.0.3/kern/syscall/proc_syscalls.c:212-278 | 16384 empty strings are accepted, and byte 131075 from kargbuf on is stored to |
| ExecArgs.Adjust | os161/os161-base-2.0.3/kern/syscall/proc_syscalls.c:282-294 | offsets become addresses and nothing else changes |
| ExecArgs.StringsApart | os161/os161-base-2.0.3/kern/syscall/proc_syscalls.c:210-265 | every string is word aligned, behind the pointers and within the block, and no two overlap |
| ExecArgs.ReadArgvFrom | os161/os161-base-2.0.3/kern/syscall/proc_syscalls.c:280-294 | reading argv from a laid-out block gives back the strings |
| ExecArgs.SeenIffNotEmpty | os161/os161-base-2.0.3/kern/syscall/proc_syscalls.c:452-458 | through the argv it is given the new program finds the argument strings if and only if there are any |
| ExecArgs.EmptyArgvIsNull | os161/os161-base-2.0.3/kern/syscall/proc_syscalls.c:452-458 | an empty list is laid out as a NULL word, but argv is NULL and not the address of that word |
| ExecArgs.PlaceArgs | os161/os161-base-2.0.3/kern/syscall/proc_syscalls.c:369-458 | argc, argv, the 8-aligned stack pointer and the block given to the new program: argv addresses the block if and only if the list is not empty, and whenever the block fits in kargbuf it holds exactly the old strings and NULL |
| ExecArgs.OverrunExample | os161/os161-base-2.0.3/kern/syscall/proc_syscalls.c:231-234 | n empty strings, for every n up to ARG_MAX, pass the checks and have a block of 8 * n + 4 bytes |
| Numerals.DigitsDenote | os161/os161-base-2.0.3/common/libc/printf/__printf.c:435-459 | the digits printed denote the number |
| Numerals.DigitsBelow | os161/os161-base-2.0.3/common/libc/printf/__printf.c:444 | every digit is below the base |
| Numerals.DigitsLength | os161/os161-base-2.0.3/common/libc/printf/__printf.c:76-84 | a number has at most k digits if and only if it is below base^k |
| Numerals.DigitsNumeral | os161/os161-base-2.0.3/common/libc/printf/__printf.c:419-458 | the digits are below the base, without leading zeros, and denote the number |
| Printf.NumberText | os161/os161-base-2.0.3/common/libc/printf/__printf.c:413-467 | the right-to-left loop stays in its buffer and yields the numeral, dividing with the millicode |
| Printf.FitsBuffer | os161/os161-base-2.0.3/common/libc/printf/__printf.c:84 | any 64-bit number in base 8, 10 or 16 fits NUMBER_BUF_SIZE with its NUL |
| Printf.BufferIsTight | os161/os161-base-2.0.3/common/libc/printf/__printf.c:84 | 2^64 - 1 in octal fills it |
| Printf.RenderPlain | os161/os161-base-2.0.3/common/libc/printf/__printf.c:503-510 | text without a percent sign is copied |
| Printf.RenderConcat | os161/os161-base-2.0.3/common/libc/printf/__printf.c:587-589 | a format can be cut anywhere: the output is that of the parts, the second started in the state the first left |
| Printf.PaddedWidth | os161/os161-base-2.0.3/common/libc/printf/__printf.c:371-403 | a field is as wide as asked for, or as its text |
| Printf.Printer.Print | os161/os161-base-2.0.3/common/libc/printf/__printf.c:144-150 | characters past the end of the buffer are counted but not stored |
| Printf.Printer.Fill | os161/os161-base-2.0.3/common/libc/printf/__printf.c:348-357 | prints the fill character n times |
| Printf.Printer.PrintStuff | os161/os161-base-2.0.3/common/libc/printf/__printf.c:365-404 | prefix, padding and text in the order the flags ask for |
| Printf.WidthMeans | os161/os161-base-2.0.3/common/libc/printf/__printf.c:203-231 | a numeral among the modifiers sets the field width to the number it denotes, for every number |
| Printf.ModifiersRoundTrip | os161/os161-base-2.0.3/common/libc/printf/__printf.c:180-233 | reading the modifiers written for any choice of flags, width and size gives back that choice, takes no argument and prints nothing |
| Printf.DirectivePrints | os161/os161-base-2.0.3/common/libc/printf/__printf.c:240-532 | %d, %u, %o, %x and %p: sign, base prefix and a numeral without leading zeros that denotes the number in base 10, 8 or 16, laid out as flags and width ask; one argument is taken |
| Printf.StringText | os161/os161-base-2.0.3/common/libc/printf/__printf.c:535-545 | %s: the argument, or (null), laid out likewise |
| Printf.CharacterText | os161/os161-base-2.0.3/common/libc/printf/__printf.c:546-563 | %c: the character, or nothing for NUL |
| Printf.OtherText | os161/os161-base-2.0.3/common/libc/printf/__printf.c:546-563 | %% and any other character: that character, and no argument is taken |
| Printf.ShownMeans | os161/os161-base-2.0.3/common/libc/printf/__printf.c:240-310 | the number shown is the one value of the directive's type that differs from the argument by a multiple of the width; an argument of that type is shown as itself |
| Printf.Printer.GetNum | os161/os161-base-2.0.3/common/libc/printf/__printf.c:240-310 | the size and sign switch: magnitude and sign together are the number shown, also for the least long long |
| Printf.Printer.PrintNum | os161/os161-base-2.0.3/common/libc/printf/__printf.c:413-491 | sign, base prefix and numeral, padded |
| Printf.Printer.Send | os161/os161-base-2.0.3/common/libc/printf/__printf.c:496-563 | one format character has the specified effect on state, arguments and output |
| Printf.Printer.Vprintf | os161/os161-base-2.0.3/common/libc/printf/__printf.c:570-592 | the output of the whole format is its rendering |
| Printf.Vsnprintf | os161/os161-base-2.0.3/common/libc/printf/snprintf.c:98-140 | stores the first min(len - 1, total) characters and a NUL, touches nothing at or past len, returns total (C99 section 7.19.6.5) |
| Atoi.ParseDigits | os161/os161-base-2.0.3/common/libc/stdlib/atoi.c:70-92 | the digit loop computes the value of the leading digits modulo 2^32 |
| Atoi.Atoi | os161/os161-base-2.0.3/common/libc/stdlib/atoi.c:49-100 | blanks, sign and digits, in 32-bit arithmetic |
| Atoi.MeaningOfText | os161/os161-base-2.0.3/common/libc/stdlib/atoi.c:49-100 | any blanks, any sign or none, any digits and anything after them: the digits' value in 32-bit arithmetic, negated for a minus sign |
| Atoi.RenderDecimal | os161/os161-base-2.0.3/common/libc/printf/__printf.c:240-287 | %d prints an optional minus sign and the decimal numeral |
| Atoi.PrintParseRoundTrip | os161/os161-base-2.0.3/common/libc/stdlib/atoi.c:49-100 | for every 32-bit n, atoi of what %d prints is n |
| Atoi.PrintThenParse | os161/os161-base-2.0.3/common/libc/printf/snprintf.c:98-140 | the same through the code and a buffer of 12 characters |
| Memmove.ForwardStep | os161/os161-base-2.0.3/common/libc/string/memcpy.c:65-83 | copying front to back is right piece by piece if the destination is not inside the source from above |
| Memmove.Memcpy | os161/os161-base-2.0.3/common/libc/string/memcpy.c:47-86 | word and byte loops both copy, for every alignment, when the destination is below the source or apart |
| Memmove.BackwardStep | os161/os161-base-2.0.3/common/libc/string/memmove.c:60-67 | copying back to front is right piece by piece if the destination is not below the source |
| Memmove.Memmove | os161/os161-base-2.0.3/common/libc/string/memmove.c:48-117 | for every destination, source, length and alignment the destination gets the old source and nothing else changes (C99 section 7.21.2.2) |
| Memmove.MovedRange | os161/os161-base-2.0.3/common/libc/string/memmove.c:43-46 | the destination range as a whole equals the old source range |
| Memmove.ForwardBytes | os161/os161-base-2.0.3/common/libc/string/memcpy.c:76-83 | the byte loop for any two ranges: over an overlap from above the first dst - src bytes of the source are repeated |
| Memmove.ForwardIsMoveIff | os161/os161-base-2.0.3/common/libc/string/memmove.c:53-76 | copying from the front moves every memory right if and only if the destination does not start inside the source |

## Left out

- Device drivers, file systems, the VM system, system call dispatch, the menu, boot and shutdown are not modelled.
- `switchframe_switch` and the atomic test-and-set are taken by contract; memory barriers are not modelled.
- `waitpid` and `_exit` ordering, the process table search and vnode reference counts are not modelled.
- Small millicode (add, subtract, shift, compare), string length, copy and comparison, timespec arithmetic, generic arrays and bitmaps would only add easy members.
- The debugging modes of `kmalloc` (guard bands, labels, heap checks) are compiled out in the source and not modelled.
- The lock built on a bare wait channel (USE_SEMAPHORE_FOR_LOCK = 0) is compiled out and not modelled.
- ThreadSystem.ReachableIsSafe: not among the checks are those of `wchan_sleep` and `wchan_wake*` on the interrupt flag, c_spinlocks and the channel's lock (for the semaphore's channel see `SemaphoreOnThreads.SleepsUnderLock`), the stack guards, and that a thread destroyed has no process.
- ThreadSystem.StepKeepsInv: thread lists are sequences here; that the linked lists in memory behave as sequences is what `ThreadList` proves. Names, processes, stacks and address spaces of threads are not modelled.
- Semaphore.SemaphoreTheorem: the semaphore is a value in a step machine, not an object updated in place; starvation is not excluded, as in the source.
- SemaphoreOnThreads.NoLostWakeup: one semaphore; a thread inside P is taken to do nothing else, but may be preempted; taking a thread off the channel and making it runnable are two steps. The condition variable's channel is not put on the scheduler in this way.
- LockAndCv.LockTheorem: one lock and one condition variable, as values in a step machine; two checks made under lk_lock and cv_lock one after the other at the start of an operation are one step.
- Spl.SplTheorem: threads, CPUs and locks are values in a step machine. A switch is made with the run queue lock alone held, and an interrupt taken in `cpu_idle` returns at a high level; the source checks neither.
- Hangman.Detector.Check: actors and lockables are numbers and their two pointer fields are maps, so aliasing of the structures themselves is not captured.
- KmallocRuns.StepEffect: freeing is for pointers that are live; a second free of a block that is not at the head of its free list is not detected by the code and not modelled. Memory is word-addressed by the words used as links.
- OpenFiles.Files.SysOpen: path copying and `vfs_open` happen before the part modelled; offsets, flags and the per-file lock are not modelled, and each call runs by itself.
- ExecArgs.PlaceArgs: the second walk over the caller's memory is taken to read what the first one read, and memory behind kargbuf not to overlap karg; the copy to the new stack succeeds; loading the executable is not modelled.
- Printf.Printer.Send: field widths and the character count are unbounded numbers; reading an argument that was not passed, which C leaves undefined, gives 0 or NULL.
