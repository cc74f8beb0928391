# Verified models of the Tyn kernel

Tyn is a small x86-64 kernel that boots an Erlang runtime. This project models, in Dafny 4.11, the parts of
it that are protocols or allocators, and proves what they keep over whole runs:

* **Scheduler and futexes** (`Sched*.dfy`, from `src/sched.rs`): per-CPU run queues, block and wake under hashed
  bucket locks, the bucket lock handed across a context switch, one-shot pending wakes, and a watchdog that only
  sets flags. A step is one critical section; the window between marking a thread Blocked and switching it out,
  and the gap between snapshot and lock in a rescue, are separate steps. Any number of CPUs and threads, any
  interleaving.
* **Split virtqueue** (`VirtQueue*.dfy`, `OwningQueue.dfy`, from `virtio-drivers-patched/src/queue.rs` and
  `queue/owning.rs`, section 2.6 of VIRTIO v1.1): the free list threaded through the descriptor table, direct and
  indirect chains, and two rings with u16 indices, shown to represent lists and unbounded counters.
* **Address allocator of mmap** (`Mmap*.dfy`, from `src/syscall.rs`): a coalescing best-fit list in front of a bump
  pointer, read as a set of bytes.
* **ENA rings** (`Ena*.dfy`, from `src/net/ena/device.rs`): phase bits and wrapping tails in place of counters.
* **tmpfs** (`Tmpfs*.dfy`, from `src/tmpfs.rs`): byte accounting under a cap, sparse writes, and a tree encoded in
  path strings.
* **Sockets and send paths** (`Socket*.dfy`, `SendPath.dfy`, from `src/net/socket.rs` and `src/syscall.rs`):
  single ownership of TCP handles and descriptor numbers; writev and sendfile under partial accepts.
* **cpio reader** (`Cpio.dfy`, from `src/vfs.rs`): lookup and directory test against archives written entry by entry.

Code that changes state in place is a class whose methods, with their loops, are proved equal to specification
functions; what the source promises is then proved of those functions over every run. `Lists`, `Tallies`, `RingArith`
and `Wrappers` hold the small facts they share.

Some promises are false of the code as it stands. Each of these has a lemma with the failing case and a lemma that
says exactly when the promise holds:

* a rescue that acts on a stale futex address can leave a thread both current and queued
  (`SchedRace.StaleRescueDoublePlaces`, `SchedTheorems.RescueExactIff`);
* a drain need not end every overdue sleep while another CPU is between taking a flag and readying the thread
  (`SchedDrain.HeldSleeperOutlasts`, `SchedDrain.OnlyHeldOutlasts`, `SchedDrain.HeldIffAsleep`);
* MAP_FIXED above the bump pointer, an empty MAP_FIXED and an munmap of pages not held break the partition of the
  address space (`MmapTheorems.FixedKeepsIff`, `MmapTheorems.MunmapKeepsIff`);
* a rename can move a mount root or put a directory beneath itself, and a failed one can delete its destination
  (`TmpfsTheorems.RenameTreeIff`, `TmpfsTheorems.RenameErrorIff`);
* a second listen, or a connect on a listener, leaks the listener's pool (`SocketTheorems.ListenOwnedIff`,
  `SocketTheorems.ConnectOwnedIff`);
* a connection can be captured by two accepts, the second on the accepted stream itself
  (`SocketCapture.CapturedTwice`, `SocketCapture.CapturedAgainIff`);
* a cpio header with a name size of zero makes the lookup and the directory test panic (`Cpio.ZeroNameSizePanics`,
  `Cpio.PanicIff`, `Cpio.DirPanicIff`).

Where code and comments disagree the model follows the code: `has_children` in `src/tmpfs.rs` speaks of immediate
children and looks for any descendant, and `sys_listen` changes the socket's type before it knows that it succeeds.

## Model

| member | source | states |
|---|---|---|
| `SchedInvariant.InitInv` | src/sched.rs:355-403 | The state built at boot, one current boot thread and idle other CPUs, satisfies the whole scheduler invariant: places, live contexts, bucket locks, pending-wake tables. |
| `SchedInvariant.StepKeeps` | src/sched.rs:289-1129 | Every step of spawn, yield, wait, wake, rescue, exit, idle loop and watchdog, on any CPU and in any interleaving, keeps that invariant. |
| `SchedTheorems.ExactPlacement` | src/sched.rs:512-640 | In every run in which no rescue acts under a stale futex address, every live thread is in exactly one place (current on its home CPU, once in its home queue, held by the code moving it, or Blocked and in neither), dead threads are nowhere, no queue holds a thread twice, and a thread only ever executes on its home CPU. |
| `SchedTheorems.PlacementAlways` | src/sched.rs:566-640 | In every run whatsoever, a thread is on its home CPU only, and outside the window of its own wait it is in exactly one place. |
| `SchedTheorems.RescueExactIff` | src/sched.rs:1035-1060 | A rescue breaks exact placement if and only if the thread it readies is one that its own CPU has marked Blocked and not yet switched out. |
| `SchedTheorems.FreshRescueExact` | src/sched.rs:1022-1060 | If the address hashed before locking is still the address the thread sleeps on, a rescue keeps exact placement. |
| `SchedRace.StaleRescueDoublePlaces` | src/sched.rs:1022-1060 | Exact placement fails without that condition: a reachable state, by an explicit run from boot, in which a thread is current and queued at once. |
| `SchedTheorems.OwnerShutsOutWaits` | src/sched.rs:205-225 | While a CPU owns a bucket lock outside a wait, no thread sleeping in that bucket is between its mark and its switch, and each has its context saved. |
| `SchedTheorems.HandoverExact` | src/sched.rs:205-225 | In every state of every run a bucket lock is held exactly when one CPU owns it; a CPU with a pending-unlock slot set takes no bucket; the forced unlock of a resume opens a lock that is held and was handed to that very CPU. |
| `SchedTheorems.NoStaleResume` | src/sched.rs:793-841 | A context is loaded only after it was saved, or by a thread switching to itself; futex_wake readies only threads whose context is saved. |
| `SchedTheorems.SleepLasts` | src/sched.rs:746-791 | Nothing but a wake, a rescue or its own exit ends the sleep of a blocked thread. |
| `SchedModel.WaitersComplete` | src/sched.rs:870-900 | The scan of the thread table misses no sleeper of the address. |
| `SchedFutex.WakeExact` | src/sched.rs:855-917 | futex_wake readies exactly min(count, sleepers) threads, the first in table order, each queued once at home in that order; every other thread and queue is untouched. |
| `SchedFutex.WakeLeavesPending` | src/sched.rs:903-917 | A wake that readies nobody leaves its address pending exactly when it was pending already or the 8-slot table had room; otherwise nothing changes; no other pending address is lost. |
| `SchedFutex.ConsumeExact` | src/sched.rs:197-203 | Consuming a pending wake removes that address and no other, so one entry is consumed once. |
| `SchedFutex.NoLostWake` | src/sched.rs:707-730 | A wake that finds no sleeper is delivered to the next wait on its address, whatever happens between, unless the table was full of other addresses: that wait does not block and uses the wake up. |
| `SchedFutex.WaitSleepsIff` | src/sched.rs:709-768 | In every reachable state a wait puts its thread to sleep if and only if no wake of the address pends, the word read under the lock is the expected one and blocking is armed; the thread then carries exactly the address, word, deadline and time of the call and the bucket stays locked; otherwise no thread changes and the lock is dropped. |
| `SchedFutex.NoLostWakeUp` | src/sched.rs:667-917 | The futex promise, in every run: if a waker changes the word before it wakes all sleepers of the address, a thread waiting for the old word does not sleep past that wake, whether its check comes before the wake or after it. |
| `SchedFutex.CommittedSleeperIsWoken` | src/sched.rs:855-917 | In every run a committed sleeper is readied by every wake that chooses it, and is then in exactly one place, its home queue. |
| `SchedFutex.ZeroAddress` | src/sched.rs:182-203 | Address 0 doubles as the empty mark: a wake of it without sleepers changes nothing at all, and a wait on it returns at once, without using anything up, exactly while its bucket has an empty slot. |
| `SchedProgress.Advances` | src/sched.rs:629-635 | The position of a queued thread is its first position less the switches on its CPU since: spawns, wakes and rescues never increase it. |
| `SchedProgress.BoundedWaiting` | src/sched.rs:324-332 | A thread at position k of a run queue becomes current by the (k+1)-st switch on that CPU, whatever else interleaves. |
| `SchedProgress.TimeoutExact` | src/sched.rs:813-824 | A blocked wait returns -110 if and only if the step that readied it was a rescue with its deadline expired; otherwise it returns 0. |
| `SchedProgress.ReturnClears` | src/sched.rs:806-824 | Returning from a wait takes the timeout mark and the deadline off the thread and changes no other. |
| `SchedProgress.DrainExact` | src/sched.rs:1015-1060 | A drain that no other CPU interrupts ends exactly the flagged sleeps at a nonzero address and clears every flag. |
| `SchedProgress.TickExact` | src/sched.rs:945-1009 | A tick flags exactly the sleepers whose futex word has changed, whose deadline has come or who have slept 5 s without one, and clears no flag. |
| `SchedProgress.TickThenDrain` | src/sched.rs:945-1060 | After a tick and an uninterrupted drain nobody sleeps whose futex word had changed, whose deadline had come or who had slept 5 s without a deadline at the tick, and no one else is disturbed unless already flagged. |
| `SchedDrain.DrainLeads` | src/sched.rs:1015-1060 | That drain is a run of the machine: with the locks free, one CPU taking each flag, its lock and the thread in turn reaches exactly its result. |
| `SchedDrain.SleepThroughIff` | src/sched.rs:855-1060 | In every run a sleep goes on from one state to another exactly when in between no wake chose the thread and no CPU finished a rescue of it. |
| `SchedDrain.OnlyHeldOutlasts` | src/sched.rs:945-1060 | In every run, whatever the other CPUs do: a sleep found overdue by a tick outlasts a whole drain by some CPU only if another CPU has taken its flag and not readied it yet. |
| `SchedDrain.HeldIffAsleep` | src/sched.rs:945-1060 | If no CPU was rescuing the thread at the tick, no wake chose it and no second tick came, the sleep outlasts the drain if and only if another CPU has taken its flag and not readied it. |
| `SchedDrain.ClaimHasReason` | src/sched.rs:945-1060 | In every run each rescue flag, and each rescue under way, goes back to a tick that found the thread due for one of the three reasons. |
| `SchedDrain.HeldSleeperOutlasts` | src/sched.rs:1015-1040 | So a drain need not end every overdue sleep: a run from boot in which a thread with a changed futex word sleeps on through a tick and the whole drain of one CPU, because another has just taken its flag. |
| `SchedProgress.DrainKeeps` | src/sched.rs:1015-1072 | An uninterrupted drain keeps the scheduler invariant, so it may stand between any two steps. |
| `SchedKernel.Scheduler.PendingWakeInsert` | src/sched.rs:182-194 | The slot loop computes the table specification used in the lemmas about pending wakes. |
| `SchedKernel.Scheduler.PendingWakeConsume` | src/sched.rs:197-203 | The slot loop answers whether the address was pending and empties its slot. |
| `SchedKernel.Scheduler.FutexWake` | src/sched.rs:855-917 | The scanning loop over thread slots, with its early stop, equals the specification of a wake, and the count returned is the number readied. |
| `SchedKernel.Scheduler.FutexWaitDecide` | src/sched.rs:707-768 | Under the bucket lock a wait consumes a pending wake if there is one, else reports a changed word, else marks its thread Blocked with the address, word and deadline asked for if blocking is armed; in every other case no thread changes and the lock is dropped. |
| `SchedKernel.Scheduler.YieldCurrent` | src/sched.rs:566-640 | The queue section of a yield: the current thread goes to the back, the front one becomes current; an empty queue changes nothing. |
| `SchedKernel.Scheduler.ReleasePendingUnlock` | src/sched.rs:219-225 | The resume path opens exactly the lock in this CPU's slot and clears the slot. |
| `SchedKernel.Scheduler.WatchdogWake` | src/sched.rs:945-1009 | The tick sets exactly the flags of sleepers whose word changed, whose deadline has come or who have slept 5 s without one, and changes nothing else. |
| `SchedKernel.Scheduler.ProcessRescues` | src/sched.rs:1015-1072 | The loop over the flags equals the specified drain, which `SchedDrain.DrainLeads` shows to be a run of the steps that other CPUs may interleave with. |
| `SchedKernel.Scheduler.ChooseCpu` | src/sched.rs:492-510 | spawn places a thread on the first idle CPU, else on the first with the shortest queue. |
| `VirtQueueModel.StepKeeps` | virtio-drivers-patched/src/queue.rs:161-303 | Every add, pop, device fetch and device return keeps the queue invariant: free list and chains partition the descriptors, each outstanding chain is in exactly one stage (offered, with the device, returned), indirect tables lie apart. |
| `VirtQueueModel.OutstandingBound` | virtio-drivers-patched/src/queue.rs:173-185 | Outstanding chains and free descriptors together never exceed the queue size. |
| `VirtQueueModel.AddPartition` | virtio-drivers-patched/src/queue.rs:161-303 | An add that is not refused never runs off the free list, and the taken descriptors leave it for the new chain only. |
| `VirtQueueModel.PopPartition` | virtio-drivers-patched/src/queue.rs:435-516 | A pop returns exactly the chain's descriptors to the front of the free list, and the partition holds again. |
| `VirtQueueMemory.PartitionAlways` | virtio-drivers-patched/src/queue.rs:119-128 | At every point of every run, walking SIZE - num_used links from the free head and the outstanding chains find every descriptor exactly once. |
| `VirtQueueMemory.DeviceSeesAdded` | virtio-drivers-patched/src/queue.rs:215-303 | Walking the device-visible table from any outstanding token, directly or through its indirect table, yields exactly the added buffers in order with their direction. |
| `VirtQueueMemory.SeenUntilPopped` | virtio-drivers-patched/src/queue.rs:485-515 | What the device sees under a token stays what was added until that token is popped, whatever is added, popped, fetched or returned in between. |
| `VirtQueueMemory.FreeWalkExact` | virtio-drivers-patched/src/queue.rs:119-128 | The links in the shadow table spell the free list, also when the head is stale because nothing is free. |
| `VirtQueueMemory.AddRing` | virtio-drivers-patched/src/queue.rs:192-213 | The available-ring slot an add writes holds no entry the device has yet to read, and the wrapped index follows the unbounded count, for any number of wraps. |
| `VirtQueueMemory.UseRing` | virtio-drivers-patched/src/queue.rs:533-557 | A device write to the used ring hits no entry the driver has yet to pop. |
| `VirtQueueMemory.IndicesExact` | virtio-drivers-patched/src/queue.rs:380-395 | Comparing the wrapped indices is exact on both sides: they differ iff an unpopped used entry, or an unread available entry, exists. |
| `VirtQueue.SizeDividesU16` | virtio-drivers-patched/src/queue.rs:74 | A power-of-two size below 2^16 divides 2^16, which is what masking a wrapping index needs. |
| `VirtQueue.NextUsedOutstanding` | virtio-drivers-patched/src/queue.rs:533-548 | With a device that returns only what it fetched, the next used id is an outstanding token and survives the cast to u16. |
| `VirtQueue.VirtQueue.constructor` | virtio-drivers-patched/src/queue.rs:83-149 | A new queue links all descriptors in order and has nothing outstanding. |
| `VirtQueue.VirtQueue.AddDirect` | virtio-drivers-patched/src/queue.rs:215-249 | The loop writes one descriptor per buffer along the free list, in shadow and device table, NEXT on all but the last, and touches nothing else. |
| `VirtQueue.VirtQueue.AddIndirect` | virtio-drivers-patched/src/queue.rs:252-303 | The loop builds the table with slot i linked to i+1, NEXT on all but the last; one descriptor points at it; the slot for the table was empty. |
| `VirtQueue.VirtQueue.Add` | virtio-drivers-patched/src/queue.rs:161-213 | InvalidParam iff no buffers, QueueFull iff nothing is free, more buffers than descriptors, or without indirect tables more than are free, with nothing changed; otherwise the token is the old free head, under which the device sees each input with its address and length as read-only and then each output as writable, and every other token as before. |
| `VirtQueue.VirtQueue.CanPop` | virtio-drivers-patched/src/queue.rs:380-382 | True exactly when the device has returned something not yet popped. |
| `VirtQueue.VirtQueue.PeekUsed` | virtio-drivers-patched/src/queue.rs:386-395 | The token of the next unpopped return, or none. |
| `VirtQueue.VirtQueue.AvailableDesc` | virtio-drivers-patched/src/queue.rs:412-424 | The number of free descriptors, or with indirect tables the whole size unless nothing is free. |
| `VirtQueue.VirtQueue.RecycleDirect` | virtio-drivers-patched/src/queue.rs:484-515 | The loop follows NEXT to exactly the end of the chain and links it, in order, in front of the old free list; both panics are unreachable. |
| `VirtQueue.VirtQueue.RecycleIndirect` | virtio-drivers-patched/src/queue.rs:441-483 | The table is released and the one descriptor goes to the front of the free list. |
| `VirtQueue.VirtQueue.PopUsed` | virtio-drivers-patched/src/queue.rs:527-570 | NotReady iff nothing is returned, WrongToken iff another token is next, with nothing changed; otherwise the length is the device's, the chain is given back, and no other token is disturbed. |
| `VirtQueue.VirtQueue.DeviceFetches` | virtio-drivers-patched/src/queue.rs:195-213 | A device following the ring reads exactly the offered heads, in order, none twice. |
| `OwningQueue.RepostExact` | virtio-drivers-patched/src/queue/owning.rs:57-76 | A popped buffer that is added back gets the same token, and every chain is as before. |
| `OwningQueue.PostedAlways` | virtio-drivers-patched/src/queue/owning.rs:107-125 | However polls and device moves interleave, every buffer is posted under its own index after each of them. |
| `OwningQueue.OwningQueue.constructor` | virtio-drivers-patched/src/queue/owning.rs:21-34 | On a fresh queue every add returns the buffer index, so the assertion holds and all buffers end up posted. |
| `OwningQueue.OwningQueue.AddBuffer` | virtio-drivers-patched/src/queue/owning.rs:57-76 | WrongToken for an index out of range; otherwise the buffer is posted and the token assertion holds. |
| `OwningQueue.OwningQueue.Poll` | virtio-drivers-patched/src/queue/owning.rs:79-125 | Nothing returned gives Ok(None); otherwise the result is the handler's, error or not, and the buffer is posted again. |
| `MmapSets.InsertIsUnion` | src/syscall.rs:1162-1213 | Adding a region adds exactly its bytes to the set, whatever overlaps. |
| `MmapSets.InsertCanonicalIff` | src/syscall.rs:1162-1213 | The list stays canonical (non-empty, page-aligned, disjoint, non-adjacent) if and only if the added range was not already free. |
| `MmapSets.BestExact` | src/syscall.rs:1216-1230 | The search yields the first of the smallest sufficient regions, and none iff every region is too small. |
| `MmapSets.TakeIsRemoval` | src/syscall.rs:1216-1240 | Taking removes exactly the returned range, which was free. |
| `MmapSets.CarveCanonical` | src/syscall.rs:1216-1240 | Taking keeps the list canonical, by swap-remove or by trimming the front. |
| `MmapSets.DropIsDifference` | src/syscall.rs:1242-1261 | Dropping a range removes exactly its bytes. |
| `MmapSets.DropSeparateIff` | src/syscall.rs:1242-1261 | Regions stay disjoint and non-adjacent if and only if the range is non-empty or splits no region. |
| `MmapSets.DropAlignedIff` | src/syscall.rs:1242-1261 | Regions stay page-aligned if and only if the range is aligned or trims no region. |
| `MmapSets.CanonicalUnique` | src/syscall.rs:1160-1213 | Two canonical lists of the same bytes hold the same regions: the list is the set's maximal intervals. |
| `MmapTheorems.MmapKeeps` | src/syscall.rs:1082-1142 | A non-FIXED mmap returns an aligned address whose pages hold no live byte; live and free bytes partition the managed range again; ENOMEM changes nothing and means exactly that neither a free region nor the space above the bump pointer holds the length. |
| `MmapTheorems.MmapReuses` | src/syscall.rs:1108-1142 | The address is that of the first of the smallest free regions that hold the length, if there is one, and the bump pointer stays. |
| `MmapTheorems.MmapBumps` | src/syscall.rs:1108-1142 | Otherwise it is the bump pointer, which moves up by exactly the pages of the length. |
| `MmapTheorems.TightIsPages` | src/syscall.rs:1144-1152 | A page range rounded tightly out of [addr, addr + length) is the set of pages that meet it. |
| `MmapTheorems.MunmapExact` | src/syscall.rs:1144-1158 | EINVAL exactly for a null address or length; ranges outside the managed area are ignored. |
| `MmapTheorems.MunmapKeepsIff` | src/syscall.rs:1144-1158 | An munmap keeps the partition, with the pages that meet [addr, addr + length) no longer live, if and only if the caller held all of these pages. |
| `MmapTheorems.PartitionAlways` | src/syscall.rs:1082-1158 | In every run of mmaps and munmaps of held pages, live and free bytes partition [MMAP_BASE, MMAP_NEXT) and the list is canonical; live are the pages that meet the ranges asked for and not unmapped since. |
| `MmapTheorems.NeverOverlaps` | src/syscall.rs:1108-1142 | No mmap of any such run returns a live byte, and ENOMEM leaves the state alone. |
| `MmapTheorems.FixedKeepsIff` | src/syscall.rs:1090-1106 | MAP_FIXED, its length filled up to whole pages, is refused exactly beyond the limit; otherwise it keeps the partition if and only if its range lies within what was handed out (or, if empty, splits no free region) and an unaligned one trims nothing. |
| `MmapTheorems.FixedAboveNextIsReused` | src/syscall.rs:1090-1106 | A FIXED mapping above the bump pointer is handed out again by the next mmap. |
| `MmapTheorems.DoubleMunmapIsSharedTwice` | src/syscall.rs:1144-1158 | After unmapping a page twice, two mmaps both return it. |
| `MmapTheorems.EmptyFixedSplits` | src/syscall.rs:1242-1261 | An empty FIXED mapping inside a free region leaves two adjacent entries. |
| `MmapKernel.Allocator.FreeRegionsAdd` | src/syscall.rs:1162-1213 | The first merging loop, with the second one after it, equals the specified insertion. |
| `MmapKernel.Allocator.MergeSecond` | src/syscall.rs:1186-1210 | The second loop joins the first other touching region and fixes the index after the removal. |
| `MmapKernel.Allocator.FreeRegionsTake` | src/syscall.rs:1216-1240 | The search loop with its early stop finds the best fit and carves it. |
| `MmapKernel.Allocator.FreeRegionsDropRange` | src/syscall.rs:1242-1261 | The retain pass and the appended pieces equal the specified difference. |
| `MmapKernel.Allocator.SysMmap` | src/syscall.rs:1082-1142 | Both branches, FIXED and not, equal the specified call. |
| `MmapKernel.Allocator.SysMunmap` | src/syscall.rs:1144-1158 | EINVAL for a null address or length, ranges outside the managed area ignored, others inserted. |
| `EnaRings.PhaseExact` | src/net/ena/device.rs:139-153 | The phase bit at the head matches if and only if an unread completion is there, for every lap. |
| `EnaRings.TailNext` | src/net/ena/device.rs:122-125 | A wrapping u16 tail with a phase flipped at slot 0 follows the unbounded counter. |
| `EnaRings.TailDistance` | src/net/ena/device.rs:156-158 | The wrapping difference of two tails is the number of entries between them. |
| `EnaTx.OutstandingAlways` | src/net/ena/device.rs:231-272 | In every run in which driver and device test only wrapped registers and phase bits, these stand for the true counts: at most 255 frames are outstanding, only written completions are reaped, and fetching, completing and reaping keep their order. |
| `EnaTx.TestsExact` | src/net/ena/device.rs:139-158 | The wrapped free-slot test passes exactly below 255 outstanding frames, the phase test exactly when a completion is unread, and the tail test exactly when a frame is unfetched. |
| `EnaTx.BuildSlotFree` | src/net/ena/device.rs:236-252 | The slot a frame is built in is not the device's and holds no outstanding frame, even when the ring is full. |
| `EnaTx.FreeSlotsExact` | src/net/ena/device.rs:156-158 | The free-slot count is exact and its subtraction never underflows. |
| `EnaTx.Transmitter.DrainTx` | src/net/ena/device.rs:139-153 | The loop reaps exactly the completions the device has written. |
| `EnaTx.Transmitter.Consume` | src/net/ena/device.rs:231-272 | A frame is sent iff fewer than 255 are uncompleted, else dropped; the buffer built in is not the device's, and every other buffer and descriptor is untouched. |
| `EnaTx.Transmitter.DeviceFetches` | src/net/ena/device.rs:254-270 | The device reads exactly the submitted frames and descriptors, in order and unharmed. |
| `EnaRx.OwnedAlways` | src/net/ena/device.rs:173-205 | In every run each of the 255 buffers is posted, with the device, or completed and unread: in one place, once; every receive posts its buffer again. |
| `EnaRx.PostRep` | src/net/ena/device.rs:106-126 | A repost never lands on a descriptor the device has yet to fetch. |
| `EnaRx.CompleteRep` | src/net/ena/device.rs:173-190 | The buffer the device fills holds no unread frame, and all unread frames stay intact. |
| `EnaRx.HeadEntry` | src/net/ena/device.rs:173-190 | The entry at the head carries the expected phase exactly when it is the next unread completion, and then names its buffer and bytes. |
| `EnaRx.Receiver.constructor` | src/net/ena/device.rs:90-95 | All 255 buffers are posted under their own index. |
| `EnaRx.Receiver.ReceiveFrame` | src/net/ena/device.rs:173-205 | Returns exactly the bytes of the next unread completion, if there is one, and posts its buffer again. |
| `TmpfsTheorems.AccountedAlways` | src/tmpfs.rs:227-713 | In every run of all modelled calls, total is the sum of all file lengths and at most CAP. |
| `TmpfsTheorems.FitsLargest` | src/tmpfs.rs:318-330 | A write takes the largest prefix whose growth, sparse gap included, the cap allows. |
| `TmpfsTheorems.WriteExact` | src/tmpfs.rs:307-342 | ENOSPC iff nothing fits, and then nothing changes; otherwise the written range holds the buffer, a gap holds zeroes, all other bytes and files are unchanged, and reading back returns what was written. |
| `TmpfsTheorems.TreeAlways` | src/tmpfs.rs:275-295 | In every run without an uprooting rename, every node but the mount roots has its parent present as a directory and both mount roots survive. |
| `TmpfsTheorems.FilesAreLeaves` | src/tmpfs.rs:663-667 | In no such state does a file have anything beneath it. |
| `TmpfsTheorems.AncestorIsDir` | src/tmpfs.rs:663-667 | In a well-formed tree whatever has descendants is a directory. |
| `TmpfsTheorems.RenameExact` | src/tmpfs.rs:614-660 | Exactly when a rename succeeds, and that it then moves the node and changes no other name. |
| `TmpfsTheorems.RenameTreeIff` | src/tmpfs.rs:614-660 | A rename keeps the tree well formed if and only if it would not, being possible, move a mount root or put a directory directly beneath itself: a condition on the tree and the two names before the call. |
| `TmpfsTheorems.RenameErrorIff` | src/tmpfs.rs:632-656 | A rename both fails and changes something if and only if beforehand the source is a directory with something beneath it, other than the destination, and the destination is an empty directory in a present parent; the destination is then deleted, nothing else changes and the call returns EINVAL. |
| `TmpfsTheorems.RenameAccounted` | src/tmpfs.rs:614-660 | Every rename, failed ones included, keeps the byte accounting exact. |
| `TmpfsTheorems.ResizeKeeps` | src/tmpfs.rs:524-541 | Truncation keeps the accounting exact and within the cap. |
| `TmpfsEffects.ResizeExact` | src/tmpfs.rs:524-541 | Changing a length is refused exactly when the growth exceeds the cap, without effect; otherwise the first bytes stay, zeroes follow, and no other name changes. |
| `TmpfsEffects.TruncateExact` | src/tmpfs.rs:511-522 | truncate does so to the named file. |
| `TmpfsEffects.FtruncateExact` | src/tmpfs.rs:496-509 | ftruncate does so to the file of its descriptor. |
| `TmpfsEffects.OpenExact` | src/tmpfs.rs:227-296 | When open succeeds and with which error it fails; it adds one descriptor, empties the file only if asked to, creates it only if missing, and changes no other name; a failed one changes nothing. |
| `TmpfsEffects.WriteFdExact` | src/tmpfs.rs:348-373 | write stores the bytes at the offset, or at the end for appending, as many as the cap allows, and moves the offset of its descriptor behind them; nothing else changes. |
| `TmpfsEffects.PwriteExact` | src/tmpfs.rs:378-395 | pwrite stores them at the given offset and moves no descriptor. |
| `TmpfsEffects.ReadExact` | src/tmpfs.rs:399-437 | read returns the bytes at the offset, all there are up to the count, and moves the offset past them. |
| `TmpfsEffects.WriteSeekRead` | src/tmpfs.rs:348-490 | What a descriptor writes is what it reads back after seeking to where the write began. |
| `TmpfsEffects.UnlinkExact` | src/tmpfs.rs:592-611 | unlink removes exactly the named file, or fails and changes nothing. |
| `TmpfsEffects.RmdirExact` | src/tmpfs.rs:693-713 | rmdir removes exactly the named directory, if it is no mount root and nothing is beneath it, or fails and changes nothing. |
| `TmpfsEffects.MkdirExact` | src/tmpfs.rs:670-690 | mkdir adds exactly one empty directory under a present one, or fails and changes nothing. |
| `TmpfsEffects.RenameFails` | src/tmpfs.rs:614-660 | With which error a rename fails. |
| `TmpfsEffects.CloseExact` | src/tmpfs.rs:572-589 | close frees the one descriptor and touches no other and no name. |
| `TmpfsEffects.FdsAlways` | src/tmpfs.rs:177-183 | In every run open descriptors have different numbers, all handed out by open. |
| `TmpfsTheorems.OpenKeeps` | src/tmpfs.rs:227-296 | Opening, truncating and creating keep the accounting and the tree. |
| `TmpfsTheorems.RemovalKeeps` | src/tmpfs.rs:592-713 | unlink and rmdir keep the accounting and the tree. |
| `TmpfsTheorems.MkdirKeeps` | src/tmpfs.rs:670-690 | mkdir keeps the accounting and the tree. |
| `TmpfsKernel.MountRootMoves` | src/tmpfs.rs:614-660 | Each empty mount root can be renamed to any name in the other. |
| `TmpfsKernel.DirectoryOrphansItself` | src/tmpfs.rs:614-660 | A directory made in any empty one can be renamed to directly beneath itself, which leaves it without a parent. |
| `TmpfsKernel.FailedRenameDeletes` | src/tmpfs.rs:632-656 | In any empty directory: mkdir, a file in it, a second mkdir and a rename of the first over the second, which fails with EINVAL and has deleted the second. |
| `TmpfsKernel.RootIsEmpty` | src/tmpfs.rs:115-121 | The mount roots are such empty directories of the freshly mounted filesystem. |
| `TmpfsKernel.NormClean` | src/tmpfs.rs:127-145 | norm yields a rooted path without trailing slash and leaves such paths alone. |
| `TmpfsKernel.NormSpellings` | src/tmpfs.rs:127-145 | Trailing slashes, a leading dot and a missing leading slash make no difference to the normal form. |
| `TmpfsKernel.ParentOf` | src/tmpfs.rs:149-155 | The parent of a path is what stands before its last component. |
| `TmpfsKernel.NormLoop` | src/tmpfs.rs:127-145 | The popping loop computes the specified normal form. |
| `TmpfsKernel.Tmpfs.WriteAt` | src/tmpfs.rs:307-342 | The in-place write equals the specified one and keeps the accounting. |
| `TmpfsKernel.Tmpfs.ResizePath` | src/tmpfs.rs:524-541 | The in-place resize equals the specified one; the counter never underflows. |
| `TmpfsKernel.Tmpfs.Open` | src/tmpfs.rs:227-296 | The in-place open equals the specified one on every branch. |
| `TmpfsKernel.Tmpfs.Unlink` | src/tmpfs.rs:592-609 | The in-place unlink equals the specified one; the counter never underflows. |
| `TmpfsKernel.Tmpfs.Rename` | src/tmpfs.rs:614-660 | The in-place rename equals the specified one on every branch, in the source's order. |
| `TmpfsKernel.Tmpfs.Mkdir` | src/tmpfs.rs:670-690 | The in-place mkdir equals the specified one. |
| `TmpfsKernel.Tmpfs.Rmdir` | src/tmpfs.rs:693-713 | The in-place rmdir equals the specified one; mount roots are refused. |
| `SocketTheorems.OwnedAlways` | src/net/socket.rs:148-515 | In every run in which listen is called once per socket and connect never on a listener with a pool, every handle in the set has exactly one owner (stream, pool slot, closing list or call in progress), every pool is full or empty, and every descriptor number handed out is in exactly one place. |
| `SocketTheorems.OpenFdsDistinct` | src/net/socket.rs:148-155 | In every such run open descriptors are distinct and none is also recycled. |
| `SocketTheorems.AllocOnce` | src/net/socket.rs:148-155 | A number is the one recycled last, or new if there is none, and no other place holds it. |
| `SocketTheorems.ListenExact` | src/net/socket.rs:366-407 | listen makes the socket a listener in any case; if it succeeds, with a pool of 63 fresh handles in Listen; no other socket or handle changes. |
| `SocketTheorems.ListenOwnedIff` | src/net/socket.rs:366-407 | A listen keeps ownership exact if and only if it fails to bind or the socket had no pool. |
| `SocketTheorems.ListenTwiceLeaks` | src/net/socket.rs:366-407 | Any second successful listen leaves all 63 spare handles of the first one in the set without an owner. |
| `SocketTheorems.ConnectOwnedIff` | src/net/socket.rs:281-305 | A connect keeps ownership exact if and only if the socket has no pool. |
| `SocketTheorems.ConnectLeaks` | src/net/socket.rs:281-305 | Connecting a listener leaves all its spare handles in the set without an owner. |
| `SocketTheorems.CaptureExact` | src/net/socket.rs:455-500 | accept captures nothing exactly when no slot of the pool is Established or CloseWait; otherwise the primary if it is, else the first spare that is, and a fresh listener takes just that slot. |
| `SocketTheorems.CapturedOnce` | src/net/socket.rs:443-500 | Right after an accept the captured connection is in no pool, not in the closing list and in no other call: only the capturing call has it. |
| `SocketCapture.StaysOut` | src/net/socket.rs:443-500 | In every such run a captured handle is in no pool for as long as it stays in the set. |
| `SocketCapture.CapturedAgainIff` | src/net/socket.rs:443-500 | In every such run an accept captures a handle that was captured before and never left the set, if and only if that handle is the primary of the socket it acts on and holds a connection: an accepted stream, then turned listener or put behind a reused descriptor number. |
| `SocketCapture.NeverCapturedTwice` | src/net/socket.rs:408-500 | In every such run in which no accept acts on a socket whose primary is a live accepted connection, no handle is captured twice unless it left the set in between. |
| `SocketCapture.CapturedTwice` | src/net/socket.rs:366-500 | Without that condition the promise that only one accept captures a connection fails: a run from the empty table in which a refused listen on an accepted stream lets a second accept take the same connection while it is up. |
| `SocketTheorems.AcceptKeeps` | src/net/socket.rs:443-515 | An accept swaps one handle of the pool for a fresh listener and keeps every handle singly owned. |
| `SocketTheorems.CloseDisposeKeeps` | src/net/socket.rs:913-953 | Closing parks a stream's handle, removes exactly the handles of a listener or datagram socket, and keeps ownership exact. |
| `SocketTheorems.PoolPresent` | src/net/socket.rs:938-945 | Every handle a closing listener removes is still in the set when its turn comes. |
| `SocketTheorems.GcExact` | src/net/socket.rs:969-982 | One pass removes exactly the finished handles, Closed or TimeWait, from the closing list and the set. |
| `SocketKernel.SocketTable.Alloc` | src/net/socket.rs:148-155 | The freelist-first allocation equals the specified one. |
| `SocketKernel.SocketTable.ListenSection` | src/net/socket.rs:366-407 | The loop installs the 63 spare listeners; a refused bind leaves the type changed. |
| `SocketKernel.SocketTable.AcceptSection` | src/net/socket.rs:443-500 | The scan of primary and spares under both locks equals the specified capture. |
| `SocketKernel.SocketTable.DisposeSection` | src/net/socket.rs:913-953 | The removal loop never meets a missing handle and equals the specified disposal. |
| `SocketKernel.SocketTable.GcClosedHandles` | src/net/socket.rs:969-982 | The swap-remove loop equals the specified pass. |
| `SendPath.WritevExact` | src/syscall.rs:2414-2448 | A writev sends exactly the reported prefix of the concatenation. |
| `SendPath.WritevFailsIff` | src/syscall.rs:2414-2448 | An error is returned if and only if there is something to send and the first attempt is refused; it is that attempt's error. |
| `SendPath.WritevAll` | src/syscall.rs:2414-2448 | A socket that accepts everything gets everything, and the count says so. |
| `SendPath.WritevResumes` | src/syscall.rs:2414-2448 | Calls resumed at the returned count send the data once, in order, without a gap, whatever the socket accepts. |
| `SendPath.SendfileExact` | src/syscall.rs:2330-2412 | A sendfile sends exactly the file slice it reports and moves the offset by that much. |
| `SendPath.SendfileFailsIff` | src/syscall.rs:2330-2412 | An error is returned if and only if the first read fails, or the file has bytes there and the first attempt is refused; it is that error. |
| `SendPath.SendfileAll` | src/syscall.rs:2330-2412 | A socket that accepts everything gets all that the file has from the offset on, up to the count. |
| `SendPath.SendfileResumes` | src/syscall.rs:2330-2412 | Calls resumed at the updated offset send one contiguous slice of the file, without gap or repetition. |
| `SendPath.Socket.SysWritev` | src/syscall.rs:2414-2448 | The loop, skipping empty entries and stopping at a short write, equals the specification. |
| `SendPath.Socket.SysSendfile` | src/syscall.rs:2330-2412 | EINVAL unless socket and file; otherwise the chunk loop equals the specification. |
| `Cpio.HexRoundTrip` | src/vfs.rs:85-97 | A fixed-width field read back gives the number written, in either case. |
| `Cpio.ParseHexLoop` | src/vfs.rs:85-97 | The digit loop computes the value of the field. |
| `Cpio.ReadsEntry` | src/vfs.rs:104-136 | At a multiple of four the reader sees exactly the name, contents and extent that were encoded there. |
| `Cpio.LookupRoundTrip` | src/vfs.rs:100-149 | On any written archive a lookup returns the first entry of the normalised name with exactly its bytes, or nothing if there is none. |
| `Cpio.LookupByName` | src/vfs.rs:100-149 | A name is found whether its path is spelled as it is, with a slash or with a dot and a slash in front. |
| `Cpio.FilesRoundTrip` | src/vfs.rs:85-149 | Files written with hexadecimal sizes in either case are found by name with exactly their contents, whatever follows the trailer. |
| `Cpio.FirstNamedIsFirst` | src/vfs.rs:128-142 | The entry found is the first of that name. |
| `Cpio.ZeroNameSizePanics` | src/vfs.rs:111-124 | An input that makes both scans panic: a magic number followed by zeroes, whose name size reads as zero. |
| `Cpio.PanicIff` | src/vfs.rs:100-149 | On any bytes the lookup panics if and only if it comes to a header whose name size reads as zero, with its contents inside the data, before a match, the trailer or an entry that is cut off. |
| `Cpio.DirPanicIff` | src/vfs.rs:350-383 | On any bytes the directory test panics if and only if it comes to such a header, whatever its contents, before a name below the prefix, the trailer or an entry that is cut off. |
| `Cpio.DirRoundTrip` | src/vfs.rs:350-383 | On any written archive a path is a directory if and only if it is under 127 bytes and some name starts with it and a slash. |
| `Cpio.DirByName` | src/vfs.rs:350-383 | ... and the same with or without a slash in front and behind. |
| `Cpio.CpioLookup` | src/vfs.rs:100-149 | The scanning loop equals the specification on any bytes; the offset strictly advances. |
| `Cpio.IsDirPrefixLoop` | src/vfs.rs:350-383 | The scanning loop equals the specification on any bytes; the offset strictly advances. |

## Left out

- Hardware effects: inline assembly, FXSAVE, APIC and IPI, page faults; a context switch is an atomic change of the current thread.
- Weak memory, spinlock internals and interrupt masking: critical sections are atomic, with the watchdog allowed between any two steps.
- The futex valve and the early-boot spin mode: a wait that spins is a yield that returns 0.
- SchedModel.PendingInsert: the 8 slots of a bucket are a sequence of that length; addresses are unbounded naturals, and the futex word read under the lock is a parameter of the step.
- SchedInvariant.StepKeeps: spawn is two steps with any target CPU (`ChooseCpu` says which one the code picks), and thread exit is one step.
- SchedProgress.DrainExact: is about a drain during which no other CPU acts; drains that other CPUs interleave with are `SchedDrain.OnlyHeldOutlasts` and `SchedDrain.HeldIffAsleep`.
- SchedProgress.BoundedWaiting: counts switches on the CPU; that switches keep happening is the timer's part and is not modelled.
- VirtQueue.VirtQueue.Add: notification is not modelled, in particular the event-index test, a plain u16 comparison; the addresses that the HAL's share returns are parameters, and an indirect table gets one not in use.
- VirtQueue.VirtQueue.PopUsed: copying data back on unshare is not modelled; the caller passes as many buffers as it added, as the source demands.
- VirtQueueModel.StepKeeps: covers devices that return only what they fetched; memory barriers are not modelled.
- OwningQueue.OwningQueue.Poll: the handler is a function of buffer index and length and does not panic; the device reports no more bytes than a buffer holds.
- MmapKernel.Allocator.SysMmap: lengths near 2^64, where page alignment wraps, and the zeroing of pages are not modelled; each call is one atomic step, so the compare-exchange loop succeeds at once.
- MmapKernel.Allocator.FreeRegionsAdd: asks for non-empty regions, which every state reached by mmap and munmap has.
- EnaTx.Transmitter.Consume: descriptor words are records of length, phase and request id; the device completes transmissions in order.
- EnaRx.Receiver.ReceiveFrame: covers devices that complete only buffers they hold, with at most the buffer's length; the branches for other ids and lengths are in the code but not reached.
- Admin queue, queue creation and doorbell MMIO of the ENA driver.
- tmpfs stat, access, pread, getdents64 and the validation of lseek, which only read or set one offset; path bytes are characters.
- TmpfsTheorems.ResizeKeeps: lengths are unbounded, so the wrap of `total + grow` in truncate and ftruncate for lengths near 2^64 is not modelled.
- SocketTheorems.OwnedAlways: does not cover an accept that resumes on a descriptor number reused by a datagram socket, which panics in the source; listen on a datagram socket panics likewise. An accept that resumes on a number reused by a stream is covered.
- smoltcp: a TCP socket is a connection state that may change at any time; bind, addresses, ports, options, send and receive buffers are not modelled.
- SendPath.Socket.SysSendfile: the file offset is a parameter; with a null offset the source reads and sets the file position, which is not modelled further.
- Open-file tables of the VFS, directory listings, pipes, epoll, timers, RTC, PCI and MMIO transports, ACPI, serial, boot, the RNG and the native functions: plumbing, or members that would be easy.
