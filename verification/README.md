# A model of the kernel's scheduler, memory, locking and block path

`dafny verify dfyconfig.toml` checks everything. The modules follow the kernel's parts:

- **Spinlock** — `spin_lock`/`spin_unlock` and their interrupt-masking forms as a machine of
  single LDAXR/CBNZ/MOV/STLXR steps, for any number of CPUs, with one exclusive monitor per
  CPU (Arm ARM DDI 0487, chapter B2). A reservation may be lost at any time.
- **RoundRobin, Scheduler** — the intrusive run queue as heap objects, updated in place, and
  the abstract schedule it refines. `Scheduler.RunQueue.ScheduleOnTick` covers every state the
  queue can be in, not only the booted one.
- **ContextSwitch, Preemption** — the register frame of `vectors.s`, instruction by
  instruction, and whole runs of any number of tasks on top of it, with interrupts from EL0 and,
  inside system calls, from EL1.
- **PageBitmap** — the first-fit bitmap over the 16386 bytes that `find_free` scans.
- **Translation, KernelTables, UserTables, Kmalloc** — physical memory as one store of
  doublewords; the architecture's four-level walk (Arm ARM DDI 0487, section D8.3, 4 KiB
  granule) reads it, and the kernel writes it through the walk of its own tables.
- **MixedRuns** — `kmalloc` and user mapping calls interleaved, and the memory side of `init_task`.
- **Fdt, FdtReaders** — the structure block of the Devicetree Specification, section 5.4: a
  serializer, what its readers can see, and the two cursor loops of `dtd.c` over the bytes.
- **VirtioBlock** — the slot table, the descriptor chain, the available ring, and a device that
  consumes `avail.ring[k mod 12]` (VIRTIO 1.1, section 2.6) and moves sectors between a disk and
  memory (section 5.2.6).
- **Arithmetic** — two facts about division.

## What turned out to hold only under a condition

- Slice expiry of a queued task gives back a well-formed list of the same tasks if and only if
  the running task was the head (`Scheduler.RunQueue.ScheduleOnTick`). `kmain.c:388-396`
  establishes that and every tick keeps it.
- The level-3 tables of `kmalloc` lie 512 bytes apart, but a table descriptor keeps only the page
  of an address. All mapped pages are reachable if and only if every one lies in a 2 MiB group
  whose number is a multiple of 8 (`Kmalloc.AllReachableIff`); for runs of small allocations that
  is: at most 512 pages in total (`Kmalloc.KmallocIsStable`). Page 512 takes page 64's entry.
- A block request allocates two pages and gives none back, so with `p` pages allocated otherwise
  the heap stays reachable for `n` requests if and only if `p + 2n <= 512`. The first 64 pages stay
  reachable for ever (`Kmalloc.FirstPagesStay`).
- A request writes its header through the address `kmalloc` returned, but tells the device the
  physical page of that address. The two agree if and only if the header's page lies in a group whose
  number is a multiple of 8 (`VirtioBlock.HeaderStands`). With 512 pages mapped in order the next
  header goes to page 0, and the device reads one that was never written (`VirtioBlock.WriteAtPage512`).
- An interrupt taken in EL1 saves TTBR0 into the doubleword at the interrupted stack pointer, which
  is the interrupted code's own: its stack is kept if and only if that doubleword was TTBR0 already
  (`Preemption.NestedIrq`). With the stack pointer at a task's frame, between the dispatcher's return
  and the restore, it replaces the task's `x0` by its TTBR0 (`Preemption.InterruptAtFrame`).
  Interrupts are on there after a block request, since `spin_unlock_with_mask` clears the mask.
  Once the restore has loaded ELR_EL1 and SPSR_EL1, such an interrupt replaces both, and the
  restore's `eret` goes back into itself.
- `deallocate_mem` clears the whole byte: freeing undoes an allocation if and only if every byte
  it touched was wholly free (`PageBitmap.FreeUndoesAllocate`).
- A request slot is claimed at `i` and released at `3 * i`: the release restores the table if and
  only if `i` is 0. The head `h` is published in `ring[h]`, but at available index `k` the device
  reads `ring[k mod 12]`: from any slot table and ring without a pending request, the device serves
  the request just made if and only if its triple lies inside the queue, `k mod 12` is `h` or the
  entry there was `h` already, and the header stands where the descriptor points
  (`VirtioBlock.BlockDriver.Submit`). Two requests that overlap leave entry 3 of the ring and slot 1
  behind (`VirtioBlock.BlockDriver.Overlap`), and the next write at an index that is 3 modulo 12 is
  then not served (`VirtioBlock.WriteAfterOverlap`). Overlapping takes two CPUs: a request polls in
  EL1, where no timer interrupt reaches the scheduler.
- A caller whose requests never overlap is served, request by request, as long as their headers lie in
  such groups, so for all of the first 512 pages (`VirtioBlock.ServeAll`). From boot that is at most 256
  requests: that the 16-bit indices may wrap is a statement about index arithmetic only.
- `block_read` and `block_write` return the length in the used element numbered like the head, while
  the device reports in the element of the used index modulo 12: the returned length is the
  request's own if and only if the two agree or hold the same number (`VirtioBlock.OwnLengthReturned`).
  Requests that never overlap return that of the last request at a used index divisible by 12.
- `add_virtio_page` puts the registers at their address if and only if it is 2 MiB aligned.
- A user address translates to itself if and only if its three upper indices were installed and the
  page written last with its bits 20:12 is its own (`UserTables.MapsToItself`). A ten-page call
  installs one level-2 index only, so the pages of a run that crosses a 2 MiB boundary fault behind
  it: from 0x801FF000, already the second page (`UserTables.CrossingRunFaults`).
- The tests for memory nodes look at a name's sixth character even when the name is shorter. This
  is harmless: the byte there is padding or the second byte of the next token, never a `y`.

## Where the code and its comments differ

- `vectors.s:134-136` documents `x0` as the return value of a system call. The restore behind the
  call reloads every register from the frame, so the user sees its old `x0`
  (`Preemption.El0SyncEntry`).
- `vectors.s:133-143` passes a system call's arguments on in the registers, but saving the context
  leaves TTBR0 in `x0`: the first argument of every system call is TTBR0 (`Preemption.El0SyncEntry`).
- `block_write` takes a size and always writes 512 bytes.
- `kmalloc` has no failure: without enough pages, or for more than 20, it still returns an address.

## Hypotheses

Tables, ring and slot table start zeroed. `__block_l2_memory_start` is page-aligned, at least
0x80087000 (`linker.ld:13-21`), and the area up to the last level-3 table ends below 0x80200000.
`add_virtio_page` and the first `map_pagetable_entry` write tables through low addresses, so they
run on the kernel's own TTBR0. Kernel stacks are disjoint and the C handlers do not write saved
frames; an interrupt in EL1 finds its stack pointer apart from the tasks' saved frames. A task is enqueued with `next` null. An array that receives bitmap indices is not the bitmap,
and holds the pages asked for; the driver's arrays are not the bitmap either, and lie in pages that
stay reachable. The 16 or 12 bytes that the drive reader takes from a non-empty `reg` or `int...`
property of a `vir...` node lie inside the tree's bytes; that they are the property's own takes
properties of that length (`FdtReaders.DriveInfoOfTree`), which other nodes need not have
(`FdtReaders.LongEnoughInTree`). The device answers only after it was notified, and no earlier
request is pending when one is made. A store to an address that faults never returns: the exception
goes back to it. Interrupt numbers, addresses of library functions and the device's delay are
parameters.

## Model

| member | source | states |
|---|---|---|
| Spinlock.StepKeepsInv | kernel/core/spinlock.c:17-27 | every instruction of any CPU, failed and stale exclusives included, keeps: one holder at most, word 1 exactly with a holder, live reservations agree with the word |
| Spinlock.MutualExclusion | kernel/core/spinlock.c:12-54 | for any number of CPUs and any interleaving at most one is inside its section, the word is 1 exactly while some CPU holds the lock, and `spin_lock` returned 0 to the one inside |
| Spinlock.OnlyHolderReleases | kernel/core/spinlock.c:40-50 | the word becomes 0 only by the unlock store of the holder, after which nobody holds it |
| Spinlock.HolderIsNotDescheduled | kernel/core/spinlock.c:56-77 | with the masked forms a timer tick is taken only before the lock is acquired or after it is released |
| Spinlock.MaskedExactly | kernel/core/spinlock.c:56-77 | in every run a CPU has its interrupts masked if and only if it uses the masked forms and is past the mask and not past the unmask; so a CPU outside takes its tick |
| Spinlock.PlainHolderCanBeInterrupted | kernel/core/spinlock.c:12-32 | without masking there is a run in which the holder is interrupted |
| Spinlock.LoneCpuAcquires | kernel/core/spinlock.c:17-27 | a CPU that runs alone on a free lock reaches its section within a bound that depends on its program point and reservation only |
| Spinlock.NineStepsAcquire | kernel/core/spinlock.c:17-27 | nine instructions are enough from any point of the retry loop |
| Spinlock.LoneHolderReleases | kernel/core/spinlock.c:40-77 | a holder that runs alone comes out with the word 0 and takes its ticks again, within a bound of eight instructions |
| RoundRobin.TicksClosedForm | kernel/core/scheduler/sched.c:127-191 | the whole queue after t ticks is the initial one rotated t / 10 times, with the head's slice at 10 - t mod 10 and the others' full |
| RoundRobin.RunningAfter | kernel/core/scheduler/sched.c:16 | after t ticks the task at (t / 10) mod n of the initial queue runs, with 10 - t mod 10 ticks left |
| RoundRobin.RoundIsFair | kernel/core/scheduler/sched.c:135-160 | of the ticks of every window of 10 n that starts at a slice boundary, exactly 10 find each of the n tasks at the head of the queue |
| Scheduler.RunQueue.RqPush | kernel/core/scheduler/sched.c:18-49 | links any task behind the tail, queued or not, touching only the old tail's link |
| Scheduler.RunQueue.RqPop | kernel/core/scheduler/sched.c:61-102 | unlinks the head and returns the new head, not the old one |
| Scheduler.RunQueue.PushThenPop | kernel/core/scheduler/sched.c:156-160 | pushing the queued head makes the list cyclic and popping makes it acyclic again, rotated by one; with a queued task that is not the head, the old head is lost and a cycle through the old tail back to that task remains |
| Scheduler.RunQueue.SchedReadyEnqueue | kernel/core/scheduler/sched.c:111-119 | the task goes last, READY with a full slice; the rest of the queue is as before |
| Scheduler.RunQueue.ExpireSlice | kernel/core/scheduler/sched.c:151-191 | on an expired slice the queue is rotated left by exactly one, n = 1 included, with the new head running |
| Scheduler.RunQueue.ScheduleOnTick | kernel/core/scheduler/sched.c:127-192 | from the booted state each tick is the abstract tick and keeps that state; in every other state the result is given too, and the list survives expiry if and only if the running task was its head |
| Scheduler.StartTwo | kernel/core/kmain.c:388-396 | booting establishes: two tasks, head running, full slices |
| ContextSwitch.Cpu.SaveContext | kernel/arch/aarch64/vectors.s:12-42 | the frame below sp holds the interrupted x0-x30, SP_EL0, ELR, SPSR and TTBR0 as they were, and memory elsewhere is unchanged; x0 is left with TTBR0 |
| ContextSwitch.Cpu.RestoreAndEret | kernel/arch/aarch64/vectors.s:44-74 | the CPU is back at EL0 with exactly what the frame held, x1 included, and sp one frame up |
| ContextSwitch.Cpu.ResumeFrom | kernel/arch/aarch64/vectors.s:127-130 | whatever the handler left in the registers, the resumed state is the returned frame's |
| ContextSwitch.Cpu.FirstUserEnter | kernel/arch/aarch64/vectors.s:154-156 | the first entry shows the initial context |
| ContextSwitch.Cpu.BuildInitialContext | kernel/core/scheduler/sched.c:104-109 | stack, entry, status and table of the initial frame are set; its general registers and all other memory stay |
| Preemption.IrqDispatcher | kernel/core/handlers.c:55-108 | interrupt 27 with SPSR bits 3:2 other than 1 makes one tick and returns the new head's frame; with bits 3:2 equal to 1, and for any other interrupt, nothing changes and the frame given is returned |
| Preemption.NestedIrq | kernel/core/handlers.c:55-108 | an interrupt in EL1, after an exception entry has set PSTATE or before the first task: queue, slices and recorded contexts stay, the interrupted code goes on in its own registers; outside the frame and the doubleword at its stack pointer memory is the same, and that doubleword is TTBR0 |
| Preemption.InterruptAtFrame | kernel/arch/aarch64/vectors.s:144-146 | the same with the stack pointer at the task's frame: the task's x0 becomes its TTBR0, and nothing else changes |
| Preemption.El1IrqEntry | kernel/arch/aarch64/vectors.s:125-130 | save, dispatch, switch of sp and restore together are one step of the run model |
| Preemption.El0SyncEntry | kernel/arch/aarch64/vectors.s:137-149 | a system call, with any interrupts taken during it, returns to the caller's exact state, x0 included, with queue, slices and contexts as they were; the dispatcher is called with the number in x7 and TTBR0 in x0; any other exception returns without popping its frame |
| Preemption.StepShows | kernel/arch/aarch64/vectors.s:12-74 | one step of the real machine is one step of tasks that have a CPU each |
| Preemption.FirstEntryShows | kernel/core/kmain.c:165-173 | with all initial contexts at their stack tops the first entry starts such a run |
| Preemption.Boot | kernel/core/kmain.c:388-405 | building both contexts, enqueueing both tasks, making the first current and entering it starts a run in which each task has a CPU of its own |
| Preemption.PreemptionIsTransparent | kernel/arch/aarch64/vectors.s:12-146 | over any run of user steps, interrupts and system calls with interrupts inside, for any number of tasks, the CPU shows the running task exactly its private state, and every other task's state waits in a frame that never moves |
| Preemption.RunTicks | kernel/core/handlers.c:82-99 | the queue of any run is the abstract queue after as many ticks as there were timer interrupts from EL0 |
| Preemption.RunningTaskAfter | kernel/core/scheduler/sched.c:127-191 | after t timer interrupts the machine runs task (t / 10) mod n, in its own state, with its frame at the top of its own stack |
| Preemption.AddressSpaceIsKept | kernel/arch/aarch64/vectors.s:40-47 | no run changes any task's TTBR0 |
| PageBitmap.FreeFromIsSorted | kernel/core/mmu.c:406-434 | the list the allocator takes from has exactly the free pages it can see, each once, in increasing order |
| PageBitmap.AllocateMem.CheckFree | kernel/core/mmu.c:383-390 | answers for exactly the page 8 * index + bit |
| PageBitmap.AllocateMem.FindFree | kernel/core/mmu.c:406-434 | returns the lowest free page among the 16386 scanned bytes, invalid exactly when there is none |
| PageBitmap.AllocateMem.SetBitmap | kernel/core/mmu.c:449-471 | takes the first `size` free pages in order, or all there are; every other bit and result entry stays; true exactly when there were enough |
| PageBitmap.CountMarked | kernel/core/mmu.c:449-471 | the number of set bits grows by exactly the number of pages taken |
| PageBitmap.AllocateMem.Allocate | kernel/core/mmu.c:650-667 | takes max(1, ceil(size / 4096)) pages, and returns that number or 0; on failure the free pages are taken all the same |
| PageBitmap.PagesFor | kernel/core/mmu.c:650-663 | the least number of pages, at least one, that holds the size |
| PageBitmap.AllocateMem.DeallocateMem | kernel/core/mmu.c:392-404 | a set bit clears its whole byte, a free one changes nothing |
| PageBitmap.AllocateMem.FreePages | kernel/core/mmu.c:680-686 | exactly the bytes that hold a taken page of the list are cleared |
| PageBitmap.FreeUndoesAllocate | kernel/core/mmu.c:392-404 | freeing what was just allocated restores the bitmap if and only if every byte it touched was wholly free |
| PageBitmap.PrefixAllocation | kernel/core/mmu.c:449-471 | from a prefix first fit takes consecutive pages right behind it and leaves a prefix |
| Translation.TableDesc | kernel/core/mmu.c:51-55 | the walk follows a table descriptor to the page of the address it was made from, dropping bits 11:0 |
| Translation.BlockDesc | kernel/core/mmu.c:95-104 | a block descriptor translates to its 2 MiB block, not open to EL0 |
| Translation.L3BlockDesc | kernel/core/mmu.c:72-92 | a page descriptor translates to its page, open to EL0 |
| Translation.HighAlias | kernel/core/mmu.c:62-65 | both aliases of an address have the same four indices and offsets |
| KernelTables.Mmu.MmuInit | kernel/core/mmu.c:152-303 | afterwards, for every offset below 2 MiB and in both halves, the windows at 0x80000000, 0x80A00000, 0x81400000, 0x82400000 and 0x85400000 lead to 0x80000000, 0x80A00000, 0x08000000, 0x09000000 and 0x40000000; no other address translates, and nothing outside the five tables was written |
| KernelTables.InitInNumbers | kernel/core/mmu.c:189-226 | the same in numbers of any memory that holds these tables |
| KernelTables.InitTranslation | kernel/core/mmu.c:179-248 | the walk succeeds if and only if the address is in the low or high half, bits 47:30 are 2 and bits 29:21 are 0, 5, 10, 18 or 42; both halves agree |
| KernelTables.DeviceTreeAliases | kernel/core/mmu.c:223-226 | the device tree at DTB_BASE is read at VIRT_DTB_BASE afterwards, for the whole window |
| KernelTables.Mmu.AddVirtioPage | kernel/core/mmu.c:134-139 | whatever the heap holds by then, adds exactly window 50 and moves no other address; 0xffff000086400000 leads to the registers' address if and only if it is 2 MiB aligned |
| KernelTables.Mmu.StoreVirtual | kernel/core/mmu.c:119-130 | a table write through a kernel address reaches the physical doubleword of the same low bits by the current tables |
| KernelTables.WindowIsIdentity | kernel/core/mmu.h:7-10 | the `_WRITABLE` window and the kernel's own both walk to the same physical address |
| UserTables.MapUserToPhysical | kernel/core/mmu.c:308-339 | three table entries and ten page entries of the process are written, in order, and nothing else; address arithmetic wraps at 64 bits |
| UserTables.MapUserToPhysicalTest | kernel/core/mmu.c:340-368 | the same for one page |
| UserTables.UserWalk | kernel/core/mmu.c:308-368 | after any calls of any processes the walk is the lookup in that process's direct-mapped store |
| UserTables.UserTranslation | kernel/core/mmu.c:308-368 | a walk succeeds if and only if its three upper indices were installed and some call wrote its bits 20:12; it yields the page written last with them |
| UserTables.MapsToItself | kernel/core/mmu.c:308-368 | exactly when an address translates to itself |
| UserTables.DistinctPagesMapToThemselves | kernel/core/mmu.c:333-338 | pages with pairwise different bits 20:12, in runs within their 2 MiB, all translate to themselves |
| UserTables.RunReachesWithinBlock | kernel/core/mmu.c:329-338 | after one ten-page call the i-th page reaches itself if it lies in the 2 MiB block of the first, and faults if it does not |
| UserTables.CrossingRunFaults | kernel/core/mmu.c:329-338 | the run from 0x801FF000: its second page was written last with its bits 20:12 and still faults |
| UserTables.LaterCallTakesEntryOver | kernel/core/mmu.c:340-368 | two pages with the same bits 20:12: the earlier address reaches the later page |
| UserTables.AddressSpacesAreSeparate | kernel/core/mmu.c:308-368 | no mapping call changes a kernel walk, and none changes a walk of the other process |
| UserTables.InitIsClosed | kernel/core/mmu.c:152-248 | the tables of `mmu_init` meet what separation needs |
| Kmalloc.HeapWalk | kernel/core/mmu.c:605-642 | every heap address leads to the page mapped last into the doubleword its walk reads, and faults if there is none |
| Kmalloc.AllReachableIff | kernel/core/mmu.c:620-624 | all mapped pages reach their own physical page if and only if all lie in groups whose number is a multiple of 8 |
| Kmalloc.KmallocIsStable | kernel/core/mmu.c:515-536 | after any run of allocations of at most 20 pages, every page of every allocation is reachable if and only if the run took at most 512 |
| Kmalloc.EveryByteIsMapped | kernel/core/mmu.c:515-536 | within 512 pages each byte of each allocation translates to the matching physical byte |
| Kmalloc.KmallocAll | kernel/core/mmu.c:515-536 | a run of calls returns the addresses of its pages in order, and no two blocks share a byte, as long as the pages last; its state is that of the run |
| Kmalloc.RunMapsInOrder | kernel/core/mmu.c:524-532 | a run of small allocations that fits has mapped pages 0, 1, 2, ... in order |
| Kmalloc.FreshIsOwn | kernel/core/mmu.c:520-532 | a store to the page that the next call returns goes to that page if and only if it lies in a group whose number is a multiple of 8 |
| Kmalloc.FreshWalk | kernel/core/mmu.c:605-642 | that is where the tables take it |
| Kmalloc.FirstPagesStay | kernel/core/mmu.c:605-642 | whatever is mapped later, pages 0 to 63 reach themselves |
| Kmalloc.Page512LeadsToPage0 | kernel/core/mmu.c:620-642 | once page 0 is mapped, the address of page 512 leads to it |
| Kmalloc.Page512TakesPage64 | kernel/core/mmu.c:620-642 | with 513 pages mapped the address of page 64 reaches page 512 |
| Kmalloc.PageMapper.LinkTables | kernel/core/mmu.c:579-599 | the one-time clearing happens while nothing is mapped and leaves the tables representing no page |
| Kmalloc.PageMapper.MapPagetableEntry | kernel/core/mmu.c:561-648 | 20 pages are mapped and 21 refused; the pages are mapped in order behind all earlier ones, and only heap tables are written |
| Kmalloc.Allocator.Kmalloc | kernel/core/mmu.c:515-536 | each call takes the next pages in order and maps them if they are at most 20; the address is 0xFFFF0000C0000000 and 4096 for each page taken before |
| Kmalloc.HeapKeepsTop | kernel/core/mmu.c:579-642 | kmalloc keeps what `add_virtio_page` and the separation of address spaces rely on |
| Kmalloc.VirtioKeepsHeap | kernel/core/mmu.c:134-139 | `add_virtio_page` leaves the heap's mappings as they are |
| Kmalloc.OtherTranslationsStay | kernel/core/mmu.c:579-642 | no heap operation moves an address outside the heap's gigabyte |
| Kmalloc.HeapIsClosed | kernel/core/mmu.c:605-642 | the tables that `kmalloc` leaves meet what the separation of address spaces needs |
| MixedRuns.MixedRun | kernel/core/kmain.c:121-200 | after any run of allocations and user mapping calls in any order: all pages are reachable if and only if the allocations took at most 512, every user walk is the lookup in the process's own calls, and other kernel addresses have not moved |
| MixedRuns.RunHolds | kernel/core/kmain.c:121-200 | such a run leaves in the heap's tables what its allocations alone leave, and in a process's tables what its calls alone leave |
| MixedRuns.Allocate | kernel/core/mmu.c:515-536 | a `kmalloc` is such an operation, and keeps all that the mapping calls rely on |
| MixedRuns.MapPages | kernel/core/mmu.c:308-368 | so is a mapping call, and it keeps all that `kmalloc` relies on |
| MixedRuns.TaskReachesItsPages | kernel/core/kmain.c:132-171 | whatever was mapped before: the ten pages from the entry point reach themselves within their 2 MiB block, and the stack page does if and only if none of them is another page with its bits 20:12 |
| MixedRuns.TaskReachesItsLibrary | kernel/core/kmain.c:132-171 | a page of `sys_write` or of `uart_printf` reaches itself if and only if its indices are installed and the last page mapped after its run with its bits 20:12, if any, is the same page |
| MixedRuns.LibraryIsInstalled | kernel/core/kmain.c:132-133 | the indices are installed for the pages in the 2 MiB block of the function's address |
| MixedRuns.InitTask | kernel/core/kmain.c:121-171 | the order of mapping calls and allocations of `init_task` keeps both, and its three blocks lie one behind the other |
| MixedRuns.EnterTask | kernel/core/kmain.c:172-173 | entered from its initial context, process 1 runs on 0x80A00000 and any other on 0x80A60000, and with that TTBR0 an address reaches itself exactly as its own mapping calls say |
| Fdt.ReadWord | kernel/core/dtd.c:25-34 | reading four bytes gives back the word that was written |
| Fdt.EncodingIsFollowed | kernel/core/dtd.c:62-92 | a cursor that skips each token's bytes and padding meets every token of the serialized block |
| Fdt.VisibleInTree | kernel/core/dtd.c:62-155 | following the inside flag over the tokens of a tree shows exactly the properties of the wanted nodes in document order |
| Fdt.NopsAreInvisible | kernel/core/dtd.c:146-147 | NOP tokens anywhere change nothing |
| FdtReaders.BlobIsBlock | kernel/core/dtd.c:12-23 | every serialized tree that fits 32-bit offsets is one the readers accept |
| FdtReaders.CursorAt | kernel/core/dtd.c:57-138 | from the start of the block the cursor meets every token, inside the block |
| FdtReaders.PositionIsAligned | kernel/core/dtd.c:92-138 | the cursor stays 4-aligned |
| FdtReaders.SixthByte | kernel/core/dtd.c:79 | the sixth byte at a shorter name lies inside the block and is never `y` |
| FdtReaders.SkipName | kernel/core/dtd.c:88-92 | the cursor ends behind the name, its NUL and its padding |
| FdtReaders.SumRegs | kernel/core/dtd.c:116-135 | the sum of the size cells of all entries, on 64 bits |
| FdtReaders.GetTotalRam | kernel/core/dtd.c:45-157 | the loop over the bytes computes the scan of the tokens, whatever tokens follow |
| FdtReaders.TotalRamOfTree | kernel/core/dtd.c:45-157 | on any tree: the sum in the first `reg` of a memory node in document order, 0 if there is none |
| FdtReaders.TotalRamInNumbers | kernel/core/dtd.c:79-135 | on a tree whose first subnode is named `memory...` and has a property named `reg` first: the sum of the sizes that its address-and-size pairs were made from |
| FdtReaders.GetDriveInfo | kernel/core/dtd.c:161-336 | the loop over the bytes leaves in the result array what the scan of the tokens says; unknown words are skipped with the word behind them |
| FdtReaders.TakeProp | kernel/core/dtd.c:238-309 | one property: a non-empty `reg` fills entries 0 and 1 from the 16 bytes at its value and ends the search, a non-empty `int...` fills 2, 3 and 4 from 12 bytes, anything else nothing |
| FdtReaders.LongEnoughInTree | kernel/core/dtd.c:238-309 | which properties must be long enough: those of virtio nodes up to the one that ends the search, and no others |
| FdtReaders.DriveInfoOfTree | kernel/core/dtd.c:161-336 | on any tree whose virtio properties are that long: address and size from the first non-empty `reg` of a virtio node, type, number and edge from the last non-empty interrupt property of a virtio node before it |
| FdtReaders.DriveInfoInNumbers | kernel/core/dtd.c:238-309 | entries 0 and 1 are the address and the size the deciding `reg` begins with, entries 2, 3 and 4 the three numbers the last interrupt property before it begins with, and all others keep their values |
| FdtReaders.DriveInfoOfVirtioNode | kernel/core/dtd.c:161-336 | on a tree whose first subnode is named `virtio_mmio...`, with properties named `interrupts` and `reg`: address, size, type, number and edge, in this order |
| VirtioBlock.TriplesAreDisjoint | kernel/drivers/block/block_driver.c:119-138 | claims without release return heads whose descriptor triples never overlap |
| VirtioBlock.ClaimsCountFree | kernel/drivers/block/block_driver.c:119-138 | from any table claims succeed as often as there were free slots; -1 exactly when none is left |
| VirtioBlock.ClaimsFromEmpty | kernel/drivers/block/block_driver.c:119-138 | from an empty table the heads are 0, 3, ..., 33, then -1; the first four triples, and only they, lie inside the queue |
| VirtioBlock.ReleaseRestoresOnlySlotZero | kernel/drivers/block/block_driver.c:217 | from any table claim and release restore it if and only if slot 0 was claimed |
| VirtioBlock.PublishedHeadIsRead | kernel/drivers/block/block_driver.c:197-199 | for any ring, the entry the device reads is the published head if and only if the head was written there or stood there before |
| VirtioBlock.BlockDriver.Overlap | kernel/drivers/block/block_driver.c:158-217 | two requests that publish before either is answered: what the device reads for each, entry 3 of the ring left behind, slot 1 leaked |
| VirtioBlock.StaleEntryHidesRequest | kernel/drivers/block/block_driver.c:197-199 | with 3 left in entry 3, a request with head 0 at an index that is 3 modulo 12 is not the one the device reads |
| VirtioBlock.WriteAfterOverlap | kernel/drivers/block/block_driver.c:222-299 | after two overlapping requests at indices 1 and 2 modulo 12 the next write is not served |
| VirtioBlock.HeaderStands | kernel/drivers/block/block_driver.c:148-152 | a request's header stands where its descriptor points if and only if its page lies in a group whose number is a multiple of 8, or the same header stood there before |
| VirtioBlock.BlockDriver.StoreHeader | kernel/drivers/block/block_driver.c:148-152 | the header is stored where the tables take its address, and nowhere else |
| VirtioBlock.WriteAtPage512 | kernel/drivers/block/block_driver.c:222-299 | with 512 pages mapped in order a write completes, its header in page 0, and the device has not served it |
| VirtioBlock.OwnIsServed | kernel/drivers/block/block_driver.c:167-186 | the device's answer to the head just built is the request with the header that stands at its address, if the triple lies inside the queue; to any other entry it is no request with that head |
| VirtioBlock.OwnLengthReturned | kernel/drivers/block/block_driver.c:213-218 | the returned length is what the device reported for this request if and only if the used index was at its head, or the element held the same number |
| VirtioBlock.BlockDriver.Submit | kernel/drivers/block/block_driver.c:158-217 | from any state without a pending request: exactly when this request is the one served, the length returned, and the whole new slot table, ring, headers and heap |
| VirtioBlock.ChainIsServed | kernel/drivers/block/block_driver.c:167-186 | the built chain is header, data, status, readable before writable, and a whole request for the device, if and only if its triple lies inside the queue |
| VirtioBlock.ChainMovesBytes | kernel/drivers/block/block_driver.c:167-186 | what the device does with three such descriptors: kind 0 and flags 3 reads, kind 1 and flags 1 writes, anything else or a broken sector moves nothing |
| VirtioBlock.BlockDriver.FindFreeIndex | kernel/drivers/block/block_driver.c:119-138 | the first free slot is taken and three times its number returned, -1 and no change when there is none |
| VirtioBlock.BlockDriver.WaitForDevice | kernel/drivers/block/block_driver.c:201-212 | polling ends when the device has taken exactly the pending entry and reported its length in the next used element, also across the 16-bit wrap |
| VirtioBlock.BlockDriver.BlockRead | kernel/drivers/block/block_driver.c:140-219 | a read takes two pages of the heap; it hangs if its header's address faults, and is served exactly when its head is the entry read and its header stands there: then the bytes of the disk from the sector on stand at the low 48 bits of the buffer's address, if the size is whole sectors, and nothing else has changed; its header has kind 0 and its data descriptor flags 3; from the idle state it is idle again |
| VirtioBlock.BlockDriver.BlockWrite | kernel/drivers/block/block_driver.c:222-300 | the same out of the buffer, with kind 1 and flags 1: the sector holds the 512 bytes at the address, whatever the size, and nothing else has changed |
| VirtioBlock.ServeAll | kernel/drivers/block/block_driver.c:140-300 | for any sequence of reads and writes with their headers in groups whose number is a multiple of 8, so for all within the first 512 pages, the device has served exactly these requests, in order, and disk and memory are what the commands make of them; each returned length in closed form |
| VirtioBlock.DiskAfterRun | kernel/drivers/block/block_driver.c:140-300 | after such a run a sector is the initial one, or holds what stood in the buffer of the last command that wrote it when it did |
| VirtioBlock.MemoryAfterRun | kernel/drivers/block/block_driver.c:140-300 | and a byte of memory is the initial one, or what the last read covering it found on the disk |
| VirtioBlock.WriteThenRead | kernel/core/kmain.c:301-302 | a sector written from one buffer and read into another: the 512 bytes of the first stand in the second, and nothing else has changed in memory or elsewhere on the disk |
| VirtioBlock.RequestsUseUpTheHeap | kernel/drivers/block/block_driver.c:150-177 | after the two allocations of each of n requests the heap is wholly reachable if and only if its other pages and 2 n together are at most 512 |

## Left out

- Preemption.El1IrqEntry: this entry is stated for interrupts from EL0; those from EL1 are `NestedIrq`, and a run has them inside system calls.
- Preemption.NestedIrq: that the corrupted doubleword matters to the C code is not modelled; what the C code does to memory is a parameter.
- Preemption.El0SyncEntry: a run does not continue behind an exception that is no system call, which leaves its frame on the stack.
- VirtioBlock.BlockDriver.BlockRead: how many bytes the device writes and reports is its own choice, a parameter.
- VirtioBlock.BlockDriver.Submit: a request is made when no other is pending; the common part of both requests is one method.
- Kmalloc.Allocator.Kmalloc: asking for more than the 64 pages of its local array is excluded.
- Kmalloc.PageMapper.ClearWords: the byte loop over the table area clears doublewords.
- UART, GIC and timer drivers and all `uart_printf` calls, with the reads of their arguments: device output without state.
- The MMIO feature negotiation in `virtio_blk.c`: a straight register script.
- MAIR, TCR, SCTLR, barriers, caches and TLB: walks read the current tables.
- Execute permissions and memory attributes of descriptors: `Translated` has the address and the EL0 bit.
- The bitmap's own placement: it is an array apart from the translation tables.
- The value of the status byte, the disk's capacity, and data buffers that overlap headers or tables: data memory is separate from both.
- Task stacks and saved frames as mapped pages: the frame model and the page model have separate memories.
- `file.h` and `syscall.c`: no other part of the kernel depends on them yet.
- The user programs and the number formatting: they hold no state of the kernel.
- The older kernel copies: they repeat the code of `kernel/`.
- The fuzzing, tracing and root file system scripts: they run outside the kernel.
