# Verification of the operating system simulator

A Dafny model of the four parts of the simulator that keep state and are written out in full, with
proofs of what they promise.

**The time-slot barrier and the programs that run on it** (`Barrier*.dfy`, `Os*.dfy`, `Pcb.dfy`).
One timer thread and any number of device threads move in lockstep, with per-device `done` and `fsh`
flags, two mutexes and two condition variables per device. Every statement that touches shared state
is one step of a labelled transition system, so a run is an arbitrary interleaving of the threads;
condition variables may wake up for no reason. `Barrier.dfy` is `src/timer.c`, `Os.dfy` puts
`cpu_routine`, `ld_routine`, `run` and the joins of `main` on top of it. `BarrierSafety.dfy` has the
phase invariant that makes setting `done` under one lock and clearing it under another correct, and
lockstep; `BarrierProgress.dfy` has absence of deadlock and the bound on the steps of a slot;
`OsSafety.dfy` and `OsTheorems.dfy` have conservation of processes, order of execution, time slices
and admission times; `OsShutdown.dfy`, `OsProgress.dfy`, `OsLiveness.dfy`, `OsEnding.dfy` and
`OsDispatches.dfy` have the end of a run: within a bounded number of steps all processes have
finished or all CPUs leave, and then `main` returns if and only if no CPU idles at that moment,
because the idle branch of `cpu_routine` does not look at `done`. `Telescopes.dfy` adds up measures
along runs.

**The region allocator** (`Regions.dfy`, `RegionList.dfy`). First fit over a heap-linked free list that
is cut up in place, together with the symbol table, in the machine's arithmetic: 64-bit words, with sizes
and the break passing through an `int`. `Regions.dfy` is the specification over values and proves exactly
when every address keeps its number of owners; `RegionList.dfy` proves the code on the linked nodes
against it.

**Physical frames and page copies** (`Frames.dfy`, `FrameDevice.dfy`). A linked list of free frames over
a flat byte array, which behaves like independent 256-byte pages.

**Encodings and the page list** (`Bitops.dfy`, `FiveLevels.dfy`, `Pte.dfy`, `PageFifo.dfy`). The bit
arithmetic, the five-level split of 64-bit addresses, the page table entries with their overlapping
fields, and FIFO replacement on a linked list.

Assumptions: memory is sequentially consistent, mutexes and condition variables behave as POSIX
says, and `malloc` succeeds. The ready queue, which the repository leaves as stubs, is a bag, and
`get_proc`, `put_proc` and `add_proc` are atomic on it; `get_proc` may return any process of the bag,
and may also return NULL; "`get_proc` fails" means that it does so although a process is ready, and a
theorem says so where it assumes that it does not. Counters and the clock are unbounded. Narrowing an
`addr_t` to `int` keeps the low 32 bits, as compilers do where the C standard leaves it open.

Where the code and its documentation disagree, the model follows the code. `docs.md:598` says that bits
13 and 14 of a page table entry are zero while its page is present; `pte_set_fpn` leaves what an earlier
swap offset put there (`Pte.StaleBitsIff`). `MEMPHY_seq_read` and `MEMPHY_seq_write` refuse exactly the
devices that are not random access, the only ones they are called for. `__alloc` overwrites the symbol
table entry without looking; a region still in it is lost (`Regions.ReuseConservesIff`). It passes the size
through an `int`, so that from 2^31 on the region has another size (`Regions.ReuseServesIff`) and may
overlap (`Regions.NarrowedReuseConservesIff`).
`MEMPHY_put_freefp` accepts a frame that is not held, which breaks the partition of the frames
(`Frames.PutKeepsPartitionIff`). A `time_slot` below one is accepted and switches preemption off
(`OsTheorems.NoPreemptionWithoutSlice`).

## Model

| member | source | states |
|---|---|---|
| `BarrierSafety.StepInv` | src/timer.c:21-93 | Every step of the timer, of a device in `next_slot` or `detach_event`, of `main`, and every spurious wakeup keeps the phase invariant: who holds which lock, which flags are up, where each device is relative to the scan and reset passes. |
| `BarrierSafety.Lockstep` | src/timer.c:21-77 | In every reachable state an unfinished device has been released in every slot `_time` has counted, one fewer exactly while the reset pass has yet to reach it; running code reads a clock equal to its own completed calls. |
| `BarrierSafety.NeverTwoSlotsApart` | src/timer.c:21-77 | Two unfinished devices are never more than one slot apart. |
| `BarrierSafety.ClockMovesOnlyAtRest` | src/timer.c:28-45 | The clock moves by one, and only when every device has reported its slot or exited. |
| `BarrierSafety.DoneIsNeverContended` | src/timer.c:47-53 | The write of `done` under `timer_lock` never competes with the one under `event_lock`. |
| `BarrierSafety.NoLostWakeup` | src/timer.c:30-36 | A device in the wait set of `timer_cond` is still to be signalled; the timer waits on `event_cond` only for a device that has set neither flag or is about to signal. |
| `BarrierSafety.TimerOutlivesDevices` | src/timer.c:54-58 | The timer thread ends only after every device has exited, and `main` ends only after the timer. |
| `BarrierSafety.StopSettlesClock` | src/timer.c:22-59 | Once `timer_stop` is set no further scan pass begins: in every run the clock ends where it is, or exactly one slot later if the timer was in a scan pass at that moment. |
| `BarrierProgress.NoDeadlock` | src/timer.c:28-93 | In every state that keeps the invariant a protocol step is possible, or the timer waits for a device running its own code, or `main` is done. |
| `BarrierProgress.StepFalls` | src/timer.c:28-77 | Every step that does not tick the clock lowers a measure; a spurious wakeup raises it by at most two. |
| `BarrierProgress.RoundsAreBounded` | src/timer.c:28-77 | Between two states with the same clock lie at most 50 n + 23 steps and three per spurious wakeup. |
| `OsSafety.StepInv` | src/os.c:51-161 | Every step of every CPU, of the loader and of the barrier keeps the invariant of the whole system. |
| `OsTheorems.OnePlaceEach` | src/os.c:57-102 | At every moment each process is at exactly one place: not admitted, ready, held by one CPU, or finished. |
| `OsTheorems.ExecutedInOrder` | src/cpu.c:61-70 | A process has executed instructions 0, 1, ... once each, in order and in strictly later slots, however often it was moved; a finished one has executed all of them. |
| `OsTheorems.OneInstructionPerCpuAndSlot` | src/os.c:98-102 | A CPU executes at most one instruction in a slot, over all processes. |
| `OsTheorems.PutBackAfterFullSlice` | src/os.c:74-101 | A process is put back exactly after `time_slot` instructions in `time_slot` consecutive slots on that CPU. |
| `OsTheorems.SliceNeverExceeded` | src/os.c:67-101 | With a positive `time_slot`, `time_left` is in 0..time_slot at every moment and no slice is exceeded. |
| `OsTheorems.NoPreemptionWithoutSlice` | src/os.c:74-100 | With `time_slot` below one nothing is ever put back. |
| `OsTheorems.OneNextSlotPerIteration` | src/os.c:57-102 | Every loop iteration that does not exit calls `next_slot` exactly once. |
| `OsTheorems.AdmissionTimesAreExact` | src/os.c:138-161 | Process 0 is added at its start time, process i at the later of its start time and one slot after its predecessor. |
| `OsEnding.ShutdownIsCleanIff` | src/os.c:83-104 | In every run, when `main` has joined its threads, all processes have finished if and only if none is left in the ready queue. |
| `OsShutdown.CleanShutdown` | src/os.c:83-104 | If `get_proc` returns NULL only when nothing is ready, then none is left: every configured process has executed all its instructions. |
| `OsShutdown.IdleCpuNeverStops` | src/os.c:59-66 | A CPU that holds nothing when the last process finishes never stops, and `main` waits for it for ever. |
| `OsShutdown.NoProcessesNeverEnds` | src/os.c:59-66 | A configuration without processes never ends. |
| `OsDispatches.SlicesRoundUp` | src/os.c:74-96 | The number of time slices a process takes is its size divided by `time_slot`, rounded up. |
| `OsDispatches.DispatchedOncePerSlice` | src/os.c:92-96 | In every run a process is dispatched at most once per time slice it takes; once if it has no instructions or `time_slot` is below one. |
| `OsDispatches.TooManyCpusNeverEnd` | src/os.c:57-104 | With more CPUs than the processes have dispatches, `main` never returns, in any run: some CPU is never dispatched, so it never stops. |
| `OsShutdown.StoppedCpuHasWorked` | src/os.c:83-86 | A CPU that stopped was dispatched at least once, and found `done` set after the last admission. |
| `OsProgress.NeverStuck` | src/os.c:51-167 | In every reachable state a step other than a spurious wakeup is possible until `main` has returned. |
| `OsProgress.SlotsAreBounded` | src/os.c:51-161 | The clock ticks at the latest after 506 cpus + 736 steps and 21 per spurious wakeup, whatever the programs do. |
| `OsLiveness.EverySlotIsUsed` | src/os.c:57-161 | In every run, until all processes have finished or all CPUs leave, every slot that has passed was used to run a process or to add one, or lay before the latest start time, or saw `get_proc` return NULL although a process was ready. |
| `OsLiveness.SettledInTime` | src/os.c:51-161 | In every run, once the clock is past instructions + processes + latest start time + slots in which `get_proc` failed, `done` is set and all processes have finished or all CPUs leave. |
| `OsLiveness.ClosedFinishedIff` | src/os.c:83-91 | When all CPUs leave, all processes have finished if and only if nothing is ready. |
| `OsLiveness.AllFinishInTime` | src/os.c:51-161 | If `get_proc` never fails, all processes have finished and `done` is set once the clock is past that deadline. |
| `OsEnding.EveryRunIsSettled` | src/os.c:51-161 | Every long enough run, under any interleaving and any choice of processes, has set `done` and finished all processes or sent all CPUs away; the bound on its steps grows by one slot per slot in which `get_proc` failed. |
| `OsEnding.EveryProcessFinishes` | src/os.c:51-161 | If `get_proc` never fails, every process finishes within a bounded number of steps. |
| `OsEnding.EndsUnlessIdling` | src/os.c:223-301 | If no CPU idles once the matter is settled, only a bounded number of steps is left, and one is possible until `main` returns. |
| `OsEnding.EndIsDecided` | src/os.c:223-301 | Once all processes have finished or all CPUs leave, `main` returns in a run that is maximal or long enough if and only if no CPU idles at that moment. |
| `Pcb.PcbT.Run` | src/cpu.c:61-70 | `run` fetches the next instruction and advances, or does nothing at the end; the control block follows the specification used by the runs above. |
| `Regions.TakeMovesOwnership` | src/libmem.c:672-730 | The search moves exactly the addresses it hands out from the free list to the caller. |
| `Regions.TakeConservesIff` | src/libmem.c:672-730 | A search that succeeds keeps the owner count of every address if and only if its `int` size is not negative; a negative one makes a free region overlap an address it did not own. |
| `Regions.TakeIsFirstFit` | src/libmem.c:685-727 | It hands out the front of the first region with room, and fails, changing nothing, exactly when none has. |
| `Regions.TakeFailsIff` | src/libmem.c:681-729 | The search fails if and only if no region passes the test or the first that does lies at the address that stands for failure. |
| `Regions.TakeReshapes` | src/libmem.c:692-717 | The region found is shortened in its place; or used up, and the list closes up behind it; or used up as the last, and an empty region stays where it ended; all other regions stay, in order. |
| `Regions.TakeStaysTidy` | src/libmem.c:692-717 | If only the last free region may be empty, that stays so, for every size: used-up regions do not pile up. |
| `Regions.TakeKeepsOrder` | src/libmem.c:692-717 | The regions that are not empty keep their order around the one that is cut. |
| `Regions.TakeDropsFreeBytes` | src/libmem.c:685-725 | Free bytes drop by exactly the size. |
| `Regions.ReuseServesIff` | src/libmem.c:71-88 | A region served from the free list has the size asked for if and only if that is below 2^31, because the size passes through an `int`. |
| `Regions.GrowthServesIff` | src/libmem.c:100-120 | A region put at the break starts there if and only if the break is below 2^31, and then has the size asked for if and only if its end does not wrap. |
| `Regions.ReuseConservesIff` | src/libmem.c:79-88 | A reuse allocation of non-negative `int` size keeps the owner count of every address if and only if the table entry was empty. |
| `Regions.NarrowedReuseConservesIff` | src/libmem.c:79-88 | Into an empty entry, it does so if and only if the size is not negative as an `int`. |
| `Regions.ReleaseConserves` | src/libmem.c:135-166 | A release keeps the owner count of every address. |
| `Regions.ReleaseEffect` | src/libmem.c:152-162 | The entry is cleared, no other entry and not the break changes, and the region heads the free list unless it is empty. |
| `Regions.ReleaseMovesOwnership` | src/libmem.c:152-162 | Exactly the addresses of the region move from the table to the free list. |
| `Regions.AllocUndoesRelease` | src/libmem.c:71-166 | A released region is the first found for its own size, and allocating that size into the same entry restores the space. |
| `Regions.AllocEffect` | src/libmem.c:79-123 | An allocation touches no other entry, and moves the break by what the system call grants exactly if no free region serves it. |
| `Regions.NewSpaceIsSound` | src/mm64.c:374-392 | The space a process starts with has disjoint regions below its break and a tidy free list, so runs can start from it. |
| `Regions.RecyclingConserves` | src/libmem.c:71-166 | Over any sequence of releases and reuse allocations the covered bytes and the break never change and disjoint regions stay disjoint. |
| `Regions.BreakIsSumOfGrowths` | src/libmem.c:71-123 | Over any run the break is its start plus what the system call granted to exactly the allocations that found nothing free. |
| `Regions.RunStaysTidy` | src/libmem.c:34-166 | Over any run at most the last free region is empty. |
| `Regions.DisjointRegions` | src/libmem.c:34-48 | One owner per address means that any two listed or live regions are disjoint. |
| `Regions.GrowthIsSafeIff` | src/libmem.c:90-123 | An allocation at the break keeps all regions disjoint, and below the break if and only if the break moves by at least the size. |
| `Regions.TwoGrowthsDisjointIff` | src/libmem.c:90-123 | Two growing allocations in a row, of any sizes into any empty entries, keep all regions disjoint if and only if the first moves the break by at least its size. |
| `Regions.GrowingRunSafeIff` | src/libmem.c:71-123 | A run keeps its regions disjoint and below the break throughout if and only if every growth moves the break by at least its size. |
| `Regions.GrowingRunStaysDisjoint` | src/libmem.c:71-123 | In particular regions stay disjoint for ever if every growth moves the break far enough. |
| `Regions.StubbedGrowthOverlaps` | src/mm-vm.c:135-161 | With the stub, which never moves the break, any two growing allocations in a row overlap. |
| `Regions.FitTestExactIff` | src/libmem.c:687 | The fit test on 64-bit words is right if and only if the sum does not wrap, which the 57-bit bus rules out. |
| `RegionList.MmStruct.constructor` | src/mm64.c:374-392 | A new area lists one empty region at address 0 and has its break there. |
| `RegionList.MmStruct.CloneSuccessor` | src/libmem.c:703-710 | Cloning the successor over a node removes exactly that region from the list. |
| `RegionList.MmStruct.TakeFrom` | src/libmem.c:689-717 | Cutting a node shortens it; or removes its region and unlinks the successor's node; or leaves an empty region at the tail; the other nodes stay linked as they were. |
| `RegionList.MmStruct.GetFreeVmrgArea` | src/libmem.c:672-730 | The search on the linked list refines the search on the sequence of regions for every `int` size, negative ones and wrapping sums included: the result, the list, its nodes and the failure. |
| `RegionList.MmStruct.EnlistVmFreergList` | src/libmem.c:34-48 | A non-empty region becomes the head of the list; an empty one is refused. |
| `RegionList.MmStruct.Alloc` | src/libmem.c:71-126 | `__alloc` refines the allocation specified on values for every 64-bit size and break, with its passages through `int`; no other entry changes, and the break moves only on the growth path. |
| `RegionList.MmStruct.Release` | src/libmem.c:135-166 | `__free` refines the release: on success the entry is cleared and its region, if not empty, heads the list on a new node; bad ids and unused entries are refused and change nothing. |
| `Frames.PutKeepsPartitionIff` | src/mm-memphy.c:179-190 | Giving a frame back keeps free list and held frames a partition if and only if the frame was held. |
| `Frames.GetFailsIffAllHeld` | src/mm-memphy.c:153-169 | Getting a frame fails if and only if all are held. |
| `Frames.PutThenGet` | src/mm-memphy.c:153-190 | A frame given back is the next one handed out, and that restores the device. |
| `Frames.GetThenPut` | src/mm-memphy.c:153-190 | A frame handed out and given back restores the device. |
| `Frames.StackDiscipline` | src/mm-memphy.c:153-190 | Over any run what lies on the free list stays, in order, until all put on top of it has been taken. |
| `Frames.LastInFirstOut` | src/mm-memphy.c:153-190 | Over any run a get that meets the list at the height a put left it, never lower in between, returns the frame of that put. |
| `Frames.FormattedPartition` | src/mm-memphy.c:125-151 | A device just formatted has every frame on its list exactly once. |
| `Frames.RunValid` | src/mm-memphy.c:153-190 | From any partition, gets, puts of held frames and copies keep free and held frames of both devices a partition of all frames. |
| `Frames.FormattedRunValid` | src/mm-memphy.c:125-190 | A run that starts with both devices just formatted keeps that partition throughout. |
| `Frames.FramesComeInOrder` | src/mm-memphy.c:125-169 | A formatted device hands out frames 0, 1, 2, ... in order and then none, as long as none is given back, whatever else goes on. |
| `Frames.HeldFrameKeepsPage` | src/mm64.c:351-367 | A held frame is never handed out again and keeps its page through all operations on other frames. |
| `Frames.SwapRoundTrip` | src/mm64.c:351-367 | A page swapped out, left alone and swapped in to any frame comes back unchanged. |
| `FrameDevice.WithPageIsIndependent` | src/mm64.c:355-364 | Replacing one page of the flat storage changes that page and no other. |
| `FrameDevice.MemPhy.constructor` | src/mm-memphy.c:195-209 | A new device is all zero; with two frames or more all its frames are free, in order, and partitioned. |
| `FrameDevice.MemPhy.Format` | src/mm-memphy.c:125-151 | Formatting lists all frames in order, a partition, or refuses a device without a whole frame and changes nothing; a single frame is listed with a link that is not set. |
| `FrameDevice.MemPhy.GetFreeFp` | src/mm-memphy.c:153-169 | Takes the first frame, or fails; refines the get of the runs. |
| `FrameDevice.MemPhy.PutFreeFp` | src/mm-memphy.c:179-190 | Puts the frame in front of all others; refines the put of the runs. |
| `FrameDevice.MemPhy.MvCsr` | src/mm-memphy.c:27-40 | The cursor ends at the offset, or at 0 for an offset past the end. |
| `FrameDevice.SeqRead` | src/mm-memphy.c:48-60 | The sequential read refuses a missing device and one that is not random access, else reads the cell the cursor was moved to. |
| `FrameDevice.Read` | src/mm-memphy.c:68-79 | Reads the addressed cell, or fails on a missing device or one that is not random access. |
| `FrameDevice.SeqWrite` | src/mm-memphy.c:87-100 | The sequential write refuses the same devices, else writes that cell. |
| `FrameDevice.Write` | src/mm-memphy.c:108-119 | Writes the addressed cell and no other, or fails on the same devices and writes nothing. |
| `FrameDevice.SwapCpPage` | src/mm64.c:351-367 | The destination page becomes the source page as it was and no other byte changes, also within one device; from a source that is not random access the page is replaced by unset bytes. |
| `FrameDevice.CopyFillsPage` | src/mm64.c:351-367 | On pages, the byte copy is the filling of one frame that the runs of `Frames` use. |
| `PageFifo.ListIsQueue` | src/mm64.c:427-436 | Pushing at the head and evicting at the tail is a queue. |
| `PageFifo.FirstInFirstOut` | src/libmem.c:643-664 | Over any interleaving, victims so far and pages still listed are the pages enlisted, in that order. |
| `PageFifo.PageList.Enlist` | src/mm64.c:427-436 | The page becomes the head of the list. |
| `PageFifo.PageList.FindVictimPage` | src/libmem.c:643-664 | The walk ends at the oldest page, which is unlinked; an empty list gives -1. |
| `Bitops.NbitsIsFloorLog` | include/bitops.h:30-35 | NBITS is the floor of the binary logarithm of every 32-bit number but zero, for which it is zero. |
| `Bitops.GenmaskCovers` | include/bitops.h:27-28 | A mask covers the bits from l to h and no others. |
| `Bitops.PageFields` | include/mm.h:54-60 | The two extractors take bits 8 to 21 and 0 to 7. |
| `Bitops.PageSplitLosslessIff` | include/mm.h:79-88 | Page number and offset determine an address if and only if it fits the 22-bit bus. |
| `FiveLevels.SplitRecombines` | src/mm64.c:71-99 | The five indices recombine to the page number modulo 2^45, for every 64-bit number. |
| `FiveLevels.SplitOfRecombined` | src/mm64.c:94-99 | Every tuple of indices is the split of the page number it stands for. |
| `FiveLevels.SplitSeparates` | src/mm64.c:94-99 | Two page numbers split alike if and only if they agree on 45 bits. |
| `FiveLevels.SplitKeepsOrder` | src/mm64.c:71-99 | Lexicographic order of the indices is numeric order of the page numbers. |
| `FiveLevels.AddressSplit` | src/mm64.c:71-83 | The split of an address is that of its page number, whatever the offset and the bits above the bus. |
| `Pte.MasksAreFields` | include/mm.h:32-46 | The three field masks are the ones GENMASK builds from the bit positions. |
| `Pte.WriteIsRead` | src/mm.c:29-129 | An effective write is read back as written, modulo the field widths, over any stale bits; an ineffective one changes nothing. |
| `Pte.WriteKeepsUnusedBits` | include/mm.h:32-46 | Bits 26, 27 and 29 are left alone. |
| `Pte.WriteKeepsRest` | src/mm.c:29-129 | Beyond the flags and the field it writes, a write leaves every bit of the entry as it was. |
| `Pte.DirtyAfterWrite` | src/mm.c:29-129 | An effective `init_pte` clears the dirty bit; `pte_set_fpn` and `pte_set_swap` leave it. |
| `Pte.LastWriteWins` | src/mm.c:29-154 | After any sequence of writes every entry reads as the last effective write to its page. |
| `Pte.EntryStays` | src/mm.c:148-154 | An entry set by `pte_set_entry` reads back bit for bit until the next effective write to its page. |
| `Pte.DirtyUntilInitialised` | src/mm.c:29-129 | Over any sequence of writes of frames and swap slots an entry stays dirty if and only if its page is not initialised. |
| `Pte.UnusedBitsSurvive` | src/mm.c:29-129 | Bits 26, 27 and 29 survive any sequence of writes of frames and swap slots. |
| `Pte.StaleBitsIff` | src/mm.c:118-129 | Bits 13 and 14 are zero after writing a frame number if and only if they were before. |
| `Pte.StaleBitsExample` | src/mm.c:99-129 | A page swapped out and brought back leaves bit 13 set. |
| `Pte.PageTable.InitPte` | src/mm.c:29-61 | `init_pte` on a table entry, with its return code. |
| `Pte.PageTable.SetFpn` | src/mm.c:118-129 | `pte_set_fpn` on a table entry; no other entry changes. |
| `Pte.PageTable.SetSwap` | src/mm.c:99-111 | `pte_set_swap` on a table entry; no other entry changes. |
| `Pte.PageTable.SetEntry` | src/mm.c:148-154 | `pte_set_entry` on a table entry; no other entry changes. |
| `Pte.Wide64ActsOnLowWord` | src/mm64.c:27-59 | On 64-bit entries a write acts on the low word as the 32-bit one and wipes the high word. |
| `Pte.Wide64AcceptsIff` | src/mm64.c:34-46 | The 64-bit and the 32-bit `init_pte` return different codes exactly for a frame number that is not zero but has a zero low word. |
| `Pte.Wide64LeavesAlone` | src/mm64.c:27-59 | For an absent page, or frame number zero, the 64-bit `init_pte` leaves the entry alone. |

## Left out

- OsShutdown.CleanShutdown: assumes that `get_proc` returns NULL only when nothing is ready, which the stubs in `src/queue.c` and `src/sched.c` neither promise nor deny; OsEnding.ShutdownIsCleanIff is the exact statement without it.
- OsLiveness.AllFinishInTime: assumes the same; OsLiveness.SettledInTime holds without it.
- OsEnding.EveryProcessFinishes: assumes the same; OsEnding.EveryRunIsSettled holds without it.
- Regions.TakeIsFirstFit: like the other theorems about values, speaks of bounds within the 57-bit bus and of a non-negative `int` size, or says what happens outside; the methods of RegionList are proved without such limits.
- RegionList.MmStruct.constructor: `init_mm` leaves the symbol table, and the link behind the first region, to whatever memory holds; here both start cleared.
- RegionList.MmStruct.EnlistVmFreergList: excludes a node with a link of its own in front of an empty list, which the code would keep; `__free` always passes a fresh node.
- RegionList.MmStruct.Alloc: the effect of the system call on the break is a parameter, since `inc_vma_limit` is a stub; ids outside the table, which the code does not check, are excluded.
- RegionList.MmStruct.Release: excludes id 30, which passes the range test of `__free` but lies one past the symbol table.
- PageFifo.PageList.FindVictimPage: excludes a single listed page, for which the code has no predecessor to unlink from.
- FrameDevice.MemPhy.constructor: says of devices of fewer than two frames only what the code sets; with one frame its link is never set, with none the list head.
- FrameDevice.Read: addresses are within the storage, which the code does not check; so are those of FrameDevice.Write.
- The threads of `src/timer.c` and `src/os.c` are steps over values, not classes with methods, because their point is the interleaving; attaching devices before the timer starts and freeing them at the end are not steps.
- The joins of `main` are one step, taken when all devices have exited.
- Wrap-around of `_time` and of `time_left`: both are unbounded in the model; with a negative `time_slot` the code's counter would wrap after 2^31 slots.
- Multi-level queue policy and queue internals: stubs in the repository.
- What an instruction does once fetched (memory instructions, system calls, the kernel allocator), page faults, page mapping, and freeing of a process's memory: stubs or incomplete in the repository.
- More than one memory area per process, and the check for overlapping areas, which is constant.
- The list of used frames, which nothing reads.
- The five-level tables themselves: the 64-bit `pte_set_fpn` and `pte_set_swap` write to a word that is thrown away.
- The user-number field of a page table entry, which overlaps the swap offset and is never written.
- `DIV_ROUND_UP`, `EXTRACT_NBITS` and the size constants built from them: one-line arithmetic without state.
- Reading of the configuration and of programs, printing, and the generated system call table.
